/** The stopping of a kitchen worker against its running handlers, at the grain of the channel
    check, WaitGroup.Add and Done, close, Wait, cancel and MarkOffline.

    Premises: a statement given a cancelled context fails, and Work runs once per worker object,
    as the application does it. */
module Lifecycle {
  import opened Text
  import opened Counting

  // ---- handlers: processOrderWrapper ----

  datatype HandlerPc = Checking | Admitted | Refused | Running | Returned

  /** One call of processOrderWrapper for order type number `kind`. `afterClose`: its check
      found the stopping channel closed; `late`: its Add came after a Wait had returned. */
  datatype Handling = Handling(kind: nat, pc: HandlerPc, afterClose: bool, late: bool, writes: nat)

  // ---- calls of Stop ----

  datatype StopPc = Entered | Locked | Closing | Waiting | Cancelling | MarkingOffline
                  | NothingToDo | MarkedOffline | OfflineFailed | Panicked

  /** `own`: called by Work's deferred function, with the context that Stop itself cancels. */
  datatype StopCall = StopCall(own: bool, pc: StopPc)

  predicate HoldsLock(pc: StopPc) {
    pc == Locked || pc == Closing || pc == Waiting || pc == Cancelling || pc == MarkingOffline
  }

  /** Past close, not yet back. */
  predicate PastClose(pc: StopPc) {
    pc == Waiting || pc == Cancelling || pc == MarkingOffline
  }

  datatype Worker = Worker(
    working: bool,
    closed: bool,          // the stopping channel
    active: nat,           // the activeOrders counter
    waited: bool,          // some Wait has returned
    cancelled: bool,       // the worker's own context
    parentCancelled: bool,
    beating: bool,         // heartbeatLoop is running
    loopsEnded: bool,      // every Consume has returned
    rowOnline: bool,       // the worker's row, as last written by this worker
    mutex: Option<nat>,    // the Stop call that holds mu
    handlings: seq<Handling>,
    busy: map<nat, nat>,   // order type -> the handling its consumer loop is in
    stops: seq<StopCall>)

  const Created := Worker(false, false, 0, false, false, false, false, false, false, None, [], map[], [])

  datatype Event =
    | MarkOnline
    | Deliver(kind: nat)
    | Check(kind: nat)
    | Add(kind: nat)
    | WriteStatus(kind: nat)
    | Done(kind: nat)
    | ReturnError(kind: nat)
    | CancelParent
    | EndHeartbeat
    | EndLoops
    | CallStop(own: bool)
    | Lock(call: nat)
    | TestWorking(call: nat)
    | Close(call: nat)
    | Wait(call: nat)
    | Cancel(call: nat)
    | MarkOffline(call: nat, ok: bool)

  predicate HandlerAt(w: Worker, kind: nat, pc: HandlerPc) {
    kind in w.busy && w.busy[kind] < |w.handlings| && w.handlings[w.busy[kind]].pc == pc
  }

  predicate StopAt(w: Worker, i: nat, pc: StopPc) {
    i < |w.stops| && w.stops[i].pc == pc
  }

  predicate Enabled(w: Worker, e: Event) {
    match e
    case MarkOnline => !w.working && w.mutex == None && !w.closed
    case Deliver(kind) => (w.working || w.closed) && !w.loopsEnded && kind !in w.busy
    case Check(kind) => HandlerAt(w, kind, Checking)
    case Add(kind) => HandlerAt(w, kind, Admitted)
    case WriteStatus(kind) => HandlerAt(w, kind, Running)
    case Done(kind) => HandlerAt(w, kind, Running) && w.active > 0
    case ReturnError(kind) => HandlerAt(w, kind, Refused)
    case CancelParent => true
    case EndHeartbeat => w.beating && (w.cancelled || w.parentCancelled)
    case EndLoops => w.busy == map[]
    case CallStop(own) => own ==> w.loopsEnded
    case Lock(i) => StopAt(w, i, Entered) && w.mutex == None
    case TestWorking(i) => StopAt(w, i, Locked)
    case Close(i) => StopAt(w, i, Closing)
    case Wait(i) => StopAt(w, i, Waiting) && w.active == 0
    case Cancel(i) => StopAt(w, i, Cancelling)
    case MarkOffline(i, ok) => StopAt(w, i, MarkingOffline) && (w.stops[i].own && w.cancelled ==> !ok)
  }

  predicate HandlerEvent(e: Event) {
    e.Deliver? || e.Check? || e.Add? || e.WriteStatus? || e.Done? || e.ReturnError?
  }

  predicate StopEvent(e: Event) {
    e.Lock? || e.TestWorking? || e.Close? || e.Wait? || e.Cancel? || e.MarkOffline?
  }

  /** The handling that a step of the loop of this type leaves in place of `h`. */
  function Handled(w: Worker, e: Event, h: Handling): Handling
    requires HandlerEvent(e)
  {
    match e
    case Check(_) => if w.closed then h.(pc := Refused, afterClose := true) else h.(pc := Admitted)
    case Add(_) => h.(pc := Running, late := w.waited)
    case WriteStatus(_) => h.(writes := h.writes + 1)
    case _ => h.(pc := Returned)
  }

  /** Steps of a handler. */
  function HandlerNext(w: Worker, e: Event): Worker
    requires Enabled(w, e) && HandlerEvent(e)
  {
    if e.Deliver? then
      w.(handlings := w.handlings + [Handling(e.kind, Checking, false, false, 0)],
         busy := w.busy[e.kind := |w.handlings|])
    else
      var b := w.busy[e.kind];
      w.(handlings := w.handlings[b := Handled(w, e, w.handlings[b])],
         active := if e.Add? then w.active + 1 else if e.Done? then w.active - 1 else w.active,
         busy := if e.Done? || e.ReturnError? then w.busy - {e.kind} else w.busy)
  }

  /** Where a step takes a Stop call. */
  function PcAfter(w: Worker, e: Event): StopPc
    requires StopEvent(e)
  {
    match e
    case Lock(_) => Locked
    case TestWorking(_) => if w.working then Closing else NothingToDo
    case Close(_) => if w.closed then Panicked else Waiting
    case Wait(_) => Cancelling
    case Cancel(_) => MarkingOffline
    case MarkOffline(_, ok) => if ok then MarkedOffline else OfflineFailed
  }

  /** Steps of a Stop call: the lock is taken first and given back on every return but a panic. */
  function StopNext(w: Worker, e: Event): Worker
    requires Enabled(w, e) && StopEvent(e)
  {
    var pc := PcAfter(w, e);
    w.(stops := w.stops[e.call := w.stops[e.call].(pc := pc)],
       mutex := if e.Lock? then Some(e.call)
                else if pc == NothingToDo || e.MarkOffline? then None
                else w.mutex,
       closed := w.closed || e.Close?,
       waited := w.waited || e.Wait?,
       cancelled := w.cancelled || e.Cancel?,
       working := w.working && pc != MarkedOffline,
       rowOnline := w.rowOnline && pc != MarkedOffline)
  }

  function Next(w: Worker, e: Event): Worker
    requires Enabled(w, e)
  {
    if HandlerEvent(e) then HandlerNext(w, e)
    else if StopEvent(e) then StopNext(w, e)
    else
      match e
      case MarkOnline => w.(working := true, beating := true, rowOnline := true)
      case CancelParent => w.(parentCancelled := true)
      case EndHeartbeat => w.(beating := false)
      case EndLoops => w.(loopsEnded := true)
      case CallStop(own) => w.(stops := w.stops + [StopCall(own, Entered)])
  }

  ghost predicate Step(w: Worker, e: Event, w': Worker) {
    Enabled(w, e) && w' == Next(w, e)
  }

  ghost function Exec(run: seq<Event>): Option<Worker> {
    if run == [] then Some(Created)
    else
      var before := Exec(run[..|run| - 1]);
      var e := run[|run| - 1];
      if before.Some? && Enabled(before.value, e) then Some(Next(before.value, e)) else None
  }

  ghost predicate Reaches(run: seq<Event>, w: Worker) {
    Exec(run) == Some(w)
  }

  // ---- invariants about handlers ----

  function IsRunning(): Handling -> bool { (h: Handling) => h.pc == Running }

  /** Handlings of one type that ran late or may still do so. */
  function LateOrAdmitted(kind: nat): Handling -> bool {
    (h: Handling) => h.kind == kind && (h.late || h.pc == Admitted)
  }

  predicate HandlingOk(w: Worker, i: nat)
    requires i < |w.handlings|
  {
    var h := w.handlings[i];
    && (h.pc != Returned <==> h.kind in w.busy && w.busy[h.kind] == i)
    && (h.afterClose ==> w.closed && h.writes == 0 && !h.late && (h.pc == Refused || h.pc == Returned))
    && (h.pc == Checking || h.pc == Admitted ==> h.writes == 0 && !h.late && !h.afterClose)
    && (h.pc == Refused ==> h.afterClose)
    && (h.late ==> w.waited && (h.pc == Running || h.pc == Returned))
    && (w.waited && h.pc == Running ==> h.late)
  }

  ghost predicate HandlersOk(w: Worker) {
    && (forall i: nat :: i < |w.handlings| ==> HandlingOk(w, i))
    && (forall kind :: kind in w.busy ==>
          w.busy[kind] < |w.handlings| && w.handlings[w.busy[kind]].kind == kind)
    && w.active == Count(w.handlings, IsRunning())
    && (forall kind :: Count(w.handlings, LateOrAdmitted(kind)) <= 1)
    && (w.waited ==> w.closed)
    && (w.cancelled ==> w.waited)
    && (w.working && !w.beating ==> w.cancelled || w.parentCancelled)
  }

  // ---- invariants about Stop calls ----

  /** What the point a Stop call has come to says about the worker. */
  predicate StopOk(w: Worker, i: nat)
    requires i < |w.stops|
  {
    var pc := w.stops[i].pc;
    && (HoldsLock(pc) ==> w.mutex == Some(i))
    && (pc == Closing || PastClose(pc) ==> w.working)
    && (PastClose(pc) ==> w.closed)
    && (pc == Cancelling || pc == MarkingOffline ==> w.waited)
    && (pc == MarkingOffline ==> w.cancelled)
    && (pc == MarkedOffline ==> !w.stops[i].own && w.waited && !w.working)
    && (pc == OfflineFailed ==> w.waited && w.working)
  }

  /** Some Stop call is between its close and its return. */
  ghost predicate Draining(w: Worker) {
    exists i :: 0 <= i < |w.stops| && PastClose(w.stops[i].pc)
  }

  /** Some Stop call failed to mark the worker offline. */
  ghost predicate Failed(w: Worker) {
    exists i :: 0 <= i < |w.stops| && w.stops[i].pc == OfflineFailed
  }

  ghost predicate SomePanic(w: Worker) {
    exists i :: 0 <= i < |w.stops| && w.stops[i].pc == Panicked
  }

  ghost predicate StopsOk(w: Worker) {
    && (forall i: nat :: i < |w.stops| ==> StopOk(w, i))
    && (w.working <==> w.rowOnline)
    && (w.closed && w.working ==> Failed(w) || Draining(w))
    && !(Failed(w) && Draining(w))
    && (SomePanic(w) ==> Failed(w))
    && (w.waited ==> w.closed)
  }

  ghost predicate Inv(w: Worker) {
    HandlersOk(w) && StopsOk(w)
  }

  // ---- handler steps ----

  /** The loop of an order type has no other handling going on. */
  lemma NoneLate(w: Worker, kind: nat)
    requires HandlersOk(w) && !w.closed && HandlerAt(w, kind, Checking)
    ensures Count(w.handlings, LateOrAdmitted(kind)) == 0
  {
    Positive(w.handlings, LateOrAdmitted(kind));
    forall i: nat | i < |w.handlings|
      ensures !LateOrAdmitted(kind)(w.handlings[i])
    {
      assert HandlingOk(w, i);
    }
  }

  lemma HandlerStep(w: Worker, w': Worker, kind: nat, h: Handling)
    requires HandlersOk(w) && kind in w.busy && w.busy[kind] < |w.handlings|
    requires w'.handlings == w.handlings[w.busy[kind] := h] && h.kind == kind
    requires w' == w.(handlings := w'.handlings, active := w'.active, busy := w'.busy)
    requires w'.busy == if h.pc == Returned then w.busy - {kind} else w.busy
    requires HandlingOk(w', w.busy[kind])
    requires w'.active == w.active - (if w.handlings[w.busy[kind]].pc == Running then 1 else 0)
                                   + (if h.pc == Running then 1 else 0)
    requires Count(w'.handlings, LateOrAdmitted(kind)) <= 1
    ensures HandlersOk(w')
  {
    var b := w.busy[kind];
    Update(w.handlings, b, h, IsRunning());
    forall k
      ensures Count(w'.handlings, LateOrAdmitted(k)) <= 1
    {
      if k != kind {
        Update(w.handlings, b, h, LateOrAdmitted(k));
      }
    }
    forall i: nat | i < |w'.handlings|
      ensures HandlingOk(w', i)
    {
      assert HandlingOk(w, i);
    }
  }

  lemma DeliverStep(w: Worker, kind: nat)
    requires HandlersOk(w) && kind !in w.busy
    ensures HandlersOk(w.(handlings := w.handlings + [Handling(kind, Checking, false, false, 0)],
                          busy := w.busy[kind := |w.handlings|]))
  {
    var h := Handling(kind, Checking, false, false, 0);
    var w' := w.(handlings := w.handlings + [h], busy := w.busy[kind := |w.handlings|]);
    Append(w.handlings, h, IsRunning());
    forall k
      ensures Count(w'.handlings, LateOrAdmitted(k)) <= 1
    {
      Append(w.handlings, h, LateOrAdmitted(k));
    }
    forall i: nat | i < |w'.handlings|
      ensures HandlingOk(w', i)
    {
      assert i < |w.handlings| ==> HandlingOk(w, i);
    }
  }

  /** Wait returns with nothing running: from now on whatever runs is late. */
  lemma WaitStep(w: Worker, w': Worker)
    requires HandlersOk(w) && w.active == 0 && w.closed
    requires w' == w.(waited := true, stops := w'.stops)
    ensures HandlersOk(w')
  {
    Positive(w.handlings, IsRunning());
    forall i: nat | i < |w.handlings|
      ensures HandlingOk(w', i)
    {
      assert HandlingOk(w, i);
      assert !IsRunning()(w.handlings[i]);
    }
  }

  /** Steps that touch no handling. */
  lemma FrameHandlers(w: Worker, w': Worker)
    requires HandlersOk(w)
    requires w'.handlings == w.handlings && w'.busy == w.busy && w'.active == w.active
    requires w'.waited == w.waited && (w.closed ==> w'.closed) && (w'.cancelled ==> w'.waited)
    requires w'.working && !w'.beating ==> w'.cancelled || w'.parentCancelled
    ensures HandlersOk(w')
  {
    forall i: nat | i < |w.handlings|
      ensures HandlingOk(w', i)
    {
      assert HandlingOk(w, i);
    }
  }

  lemma HandlerEventKeeps(w: Worker, e: Event)
    requires HandlersOk(w) && Enabled(w, e) && HandlerEvent(e)
    ensures HandlersOk(Next(w, e))
  {
    if e.Deliver? {
      DeliverStep(w, e.kind);
    } else {
      var b, w' := w.busy[e.kind], Next(w, e);
      var h := w'.handlings[b];
      assert HandlingOk(w, b);
      Update(w.handlings, b, h, LateOrAdmitted(e.kind));
      if e.Check? && !w.closed {
        NoneLate(w, e.kind);
      }
      HandlerStep(w, w', e.kind, h);
    }
  }

  /** What a step that is no handler's and no Wait leaves as it was. */
  lemma FramedStep(w: Worker, e: Event, w': Worker)
    requires Step(w, e, w') && !HandlerEvent(e) && !e.Wait?
    ensures
      && w'.handlings == w.handlings && w'.busy == w.busy && w'.active == w.active
      && w'.waited == w.waited && (w.closed ==> w'.closed)
      && w'.cancelled == (w.cancelled || e.Cancel?)
      && (w'.working && !w'.beating ==> (w.working && !w.beating) || e.EndHeartbeat?)
      && (w.parentCancelled ==> w'.parentCancelled)
  {
    if StopEvent(e) {
      assert w' == StopNext(w, e);
    } else {
      match e
      case MarkOnline =>
      case CancelParent =>
      case EndHeartbeat =>
      case EndLoops =>
      case CallStop(_) =>
    }
  }

  lemma StepKeepsHandlers(w: Worker, e: Event, w': Worker)
    requires HandlersOk(w) && Step(w, e, w')
    requires StopEvent(e) ==> StopOk(w, e.call)
    ensures HandlersOk(w')
  {
    if HandlerEvent(e) {
      HandlerEventKeeps(w, e);
    } else if e.Wait? {
      WaitStep(w, w');
    } else {
      FramedStep(w, e, w');
      FrameHandlers(w, w');
    }
  }

  // ---- Stop steps ----

  /** How one Stop call's progress shows in the existence claims. */
  lemma StopMoves(w: Worker, w': Worker, i: nat, pc: StopPc)
    requires i < |w.stops| && w'.stops == w.stops[i := w.stops[i].(pc := pc)]
    ensures Failed(w') ==> Failed(w) || pc == OfflineFailed
    ensures Failed(w) && w.stops[i].pc != OfflineFailed ==> Failed(w')
    ensures pc == OfflineFailed ==> Failed(w')
    ensures Draining(w') ==> Draining(w) || PastClose(pc)
    ensures PastClose(pc) ==> Draining(w')
    ensures Draining(w) && !PastClose(w.stops[i].pc) ==> Draining(w')
    ensures SomePanic(w') ==> SomePanic(w) || pc == Panicked
  {
    assert w'.stops[i].pc == pc;
    assert forall j :: 0 <= j < |w.stops| && j != i ==> w'.stops[j] == w.stops[j];
    if Failed(w) {
      var j :| 0 <= j < |w.stops| && w.stops[j].pc == OfflineFailed;
      assert j != i ==> w'.stops[j].pc == OfflineFailed;
    }
    if Draining(w) {
      var j :| 0 <= j < |w.stops| && PastClose(w.stops[j].pc);
      assert j != i ==> PastClose(w'.stops[j].pc);
    }
  }

  /** The mutex keeps all other Stop calls out of the critical section. */
  lemma OthersOk(w: Worker, w': Worker, i: nat)
    requires forall j: nat :: j < |w.stops| ==> StopOk(w, j)
    requires i < |w.stops| && |w'.stops| == |w.stops|
    requires forall j :: 0 <= j < |w.stops| && j != i ==> w'.stops[j] == w.stops[j]
    requires StopOk(w', i)
    requires w.mutex == Some(i) || w.mutex == None
    requires w'.working == w.working || (w.mutex == Some(i) && !w'.working && !Failed(w))
    requires (w.closed ==> w'.closed) && (w.waited ==> w'.waited) && (w.cancelled ==> w'.cancelled)
    ensures forall j: nat :: j < |w'.stops| ==> StopOk(w', j)
  {
    forall j: nat | j < |w'.stops|
      ensures StopOk(w', j)
    {
      assert StopOk(w, j);
      assert j != i ==> w'.stops[j] == w.stops[j];
      assert w.stops[j].pc == OfflineFailed ==> Failed(w);
    }
  }

  /** The holder of the mutex is the only one that can be past its close. */
  lemma OnlyHolderDrains(w: Worker, i: nat)
    requires StopsOk(w) && i < |w.stops| && HoldsLock(w.stops[i].pc)
    ensures Draining(w) <==> PastClose(w.stops[i].pc)
  {
    assert StopOk(w, i);
    if Draining(w) {
      var j :| 0 <= j < |w.stops| && PastClose(w.stops[j].pc);
      assert StopOk(w, j);
    }
  }

  /** When the holder of the mutex returns, nobody is past its close. */
  lemma NoneDraining(w: Worker, w': Worker, i: nat)
    requires StopsOk(w) && i < |w.stops| && HoldsLock(w.stops[i].pc)
    requires |w'.stops| == |w.stops| && !PastClose(w'.stops[i].pc)
    requires forall j :: 0 <= j < |w.stops| && j != i ==> w'.stops[j] == w.stops[j]
    ensures !Draining(w')
  {
    assert StopOk(w, i);
    forall j: nat | j < |w.stops|
      ensures !PastClose(w'.stops[j].pc)
    {
      assert StopOk(w, j);
    }
  }

  /** A channel found closed by a Stop call was closed by one that failed. */
  lemma ClosedByFailure(w: Worker, i: nat)
    requires StopsOk(w) && i < |w.stops| && w.stops[i].pc == Closing
    ensures w.closed <==> Failed(w)
  {
    assert StopOk(w, i);
    OnlyHolderDrains(w, i);
    if Failed(w) {
      var j :| 0 <= j < |w.stops| && w.stops[j].pc == OfflineFailed;
      assert StopOk(w, j);
    }
  }

  lemma CloseKeeps(w: Worker, i: nat)
    requires StopsOk(w) && StopAt(w, i, Closing)
    ensures StopsOk(Next(w, Close(i)))
  {
    var w' := Next(w, Close(i));
    assert StopOk(w, i);
    ClosedByFailure(w, i);
    StopMoves(w, w', i, w'.stops[i].pc);
    NoneDrainingYet(w, w', i);
    OthersOk(w, w', i);
  }

  lemma NoneDrainingYet(w: Worker, w': Worker, i: nat)
    requires StopsOk(w) && i < |w.stops| && HoldsLock(w.stops[i].pc)
    requires |w'.stops| == |w.stops|
    requires forall j :: 0 <= j < |w.stops| && j != i ==> w'.stops[j] == w.stops[j]
    ensures Draining(w') ==> PastClose(w'.stops[i].pc)
  {
    if !PastClose(w'.stops[i].pc) {
      NoneDraining(w, w', i);
    }
  }

  lemma MarkOfflineKeeps(w: Worker, i: nat, ok: bool)
    requires StopsOk(w) && Enabled(w, MarkOffline(i, ok))
    ensures StopsOk(Next(w, MarkOffline(i, ok)))
  {
    var w' := Next(w, MarkOffline(i, ok));
    assert StopOk(w, i);
    OnlyHolderDrains(w, i);
    StopMoves(w, w', i, w'.stops[i].pc);
    NoneDraining(w, w', i);
    OthersOk(w, w', i);
    NoPanicYet(w);
  }

  lemma NoPanicYet(w: Worker)
    requires StopsOk(w) && Draining(w)
    ensures !SomePanic(w)
  {}

  lemma StopEventKeeps(w: Worker, e: Event)
    requires StopsOk(w) && Enabled(w, e) && StopEvent(e)
    ensures StopsOk(Next(w, e))
  {
    if e.MarkOffline? {
      MarkOfflineKeeps(w, e.call, e.ok);
    } else if e.Close? {
      CloseKeeps(w, e.call);
    } else {
      assert StopOk(w, e.call);
      MidwayKeeps(w, Next(w, e), e.call, Next(w, e).stops[e.call].pc);
    }
  }

  /** Steps of a Stop call that neither close nor settle its outcome. */
  lemma MidwayKeeps(w: Worker, w': Worker, i: nat, pc: StopPc)
    requires StopsOk(w) && i < |w.stops| && w'.stops == w.stops[i := w.stops[i].(pc := pc)]
    requires PastClose(pc) == PastClose(w.stops[i].pc)
    requires pc != OfflineFailed && pc != Panicked && w.stops[i].pc != OfflineFailed
    requires w'.working == w.working && w'.rowOnline == w.rowOnline && w'.closed == w.closed
    requires (w.waited ==> w'.waited) && (w'.waited ==> w.closed) && (w.cancelled ==> w'.cancelled)
    requires w.mutex == Some(i) || w.mutex == None
    requires StopOk(w', i)
    ensures StopsOk(w')
  {
    StopMoves(w, w', i, pc);
    OthersOk(w, w', i);
    if PastClose(pc) {
      assert Draining(w);
    }
  }

  lemma OtherEventKeeps(w: Worker, w': Worker)
    requires StopsOk(w) && w.stops <= w'.stops
    requires forall i :: |w.stops| <= i < |w'.stops| ==> w'.stops[i].pc == Entered
    requires w'.mutex == w.mutex && w'.closed == w.closed && w'.waited == w.waited && w'.cancelled == w.cancelled
    requires
      || (w'.working == w.working && w'.rowOnline == w.rowOnline)
      || (!w.closed && w'.working && w'.rowOnline)
    ensures StopsOk(w')
  {
    assert forall i :: 0 <= i < |w.stops| ==> w'.stops[i] == w.stops[i];
    forall i: nat | i < |w'.stops|
      ensures StopOk(w', i)
    {
      assert i < |w.stops| ==> StopOk(w, i);
    }
    assert Failed(w) ==> Failed(w');
    assert Draining(w) ==> Draining(w');
    assert Failed(w') ==> Failed(w);
    assert Draining(w') ==> Draining(w);
    assert SomePanic(w') ==> SomePanic(w);
  }

  /** What a step outside Stop leaves as it was. */
  lemma OutsideStop(w: Worker, e: Event, w': Worker)
    requires Step(w, e, w') && !StopEvent(e)
    ensures
      && w'.stops == (if e.CallStop? then w.stops + [StopCall(e.own, Entered)] else w.stops)
      && w'.mutex == w.mutex && w'.closed == w.closed && w'.waited == w.waited && w'.cancelled == w.cancelled
      && (if e.MarkOnline? then !w.closed && w'.working && w'.rowOnline
          else w'.working == w.working && w'.rowOnline == w.rowOnline)
  {
    if HandlerEvent(e) {
      assert w' == HandlerNext(w, e);
    } else {
      match e
      case MarkOnline =>
      case CancelParent =>
      case EndHeartbeat =>
      case EndLoops =>
      case CallStop(_) =>
    }
  }

  lemma StepKeepsStops(w: Worker, e: Event, w': Worker)
    requires StopsOk(w) && Step(w, e, w')
    ensures StopsOk(w')
  {
    if StopEvent(e) {
      StopEventKeeps(w, e);
    } else {
      OutsideStop(w, e, w');
      OtherEventKeeps(w, w');
    }
  }

  lemma {:induction false} ReachableInv(run: seq<Event>, w: Worker)
    requires Reaches(run, w)
    ensures Inv(w)
  {
    if run != [] {
      var before := Exec(run[..|run| - 1]).value;
      ReachableInv(run[..|run| - 1], before);
      var e := run[|run| - 1];
      if StopEvent(e) {
        assert StopOk(before, e.call);
      }
      StepKeepsHandlers(before, e, w);
      StepKeepsStops(before, e, w);
    }
  }

  // ---- results ----

  /** Under every interleaving, once a Stop call has come to MarkOffline, every order whose Add
      came before its Wait returned has finished; any order still running passed its check
      before the close and did its Add after the Wait. */
  lemma DrainedBeforeOffline(run: seq<Event>, w: Worker, i: nat, call: nat)
    requires Reaches(run, w) && i < |w.handlings| && w.handlings[i].pc == Running
    requires call < |w.stops|
    requires w.stops[call].pc == MarkingOffline || w.stops[call].pc == MarkedOffline
          || w.stops[call].pc == OfflineFailed
    ensures w.handlings[i].late && !w.handlings[i].afterClose
  {
    ReachableInv(run, w);
    assert HandlingOk(w, i) && StopOk(w, call);
  }

  /** At most one order of each type ever runs late. */
  lemma OneLateOrderPerType(run: seq<Event>, w: Worker, i: nat, j: nat)
    requires Reaches(run, w) && i < j < |w.handlings|
    requires w.handlings[i].late && w.handlings[j].late
    ensures w.handlings[i].kind != w.handlings[j].kind
  {
    ReachableInv(run, w);
    if w.handlings[i].kind == w.handlings[j].kind {
      TwoCounted(w.handlings, LateOrAdmitted(w.handlings[i].kind), i, j);
    }
  }

  lemma TwoCounted<T>(s: seq<T>, p: T -> bool, i: nat, j: nat)
    requires i < j < |s| && p(s[i]) && p(s[j])
    ensures Count(s, p) >= 2
  {
    if j == |s| - 1 {
      Positive(s[..|s| - 1], p);
      assert s[..|s| - 1][i] == s[i];
    } else {
      TwoCounted(s[..|s| - 1], p, i, j);
    }
  }

  /** A delivery checked after the close writes no status and is refused. */
  lemma RefusedWritesNothing(run: seq<Event>, w: Worker, i: nat)
    requires Reaches(run, w) && i < |w.handlings| && w.handlings[i].afterClose
    ensures w.handlings[i].writes == 0 && w.handlings[i].pc != Running
  {
    ReachableInv(run, w);
    assert HandlingOk(w, i);
  }

  /** While a worker has not drained, its heartbeat loop keeps running, unless the parent
      context is cancelled. */
  lemma HeartbeatsUntilDrained(run: seq<Event>, w: Worker)
    requires Reaches(run, w) && w.working && !w.waited && !w.parentCancelled
    ensures w.beating && !Enabled(w, EndHeartbeat)
    ensures forall later: Worker :: later.beating ==>
      (Enabled(later, EndHeartbeat) <==> later.cancelled || later.parentCancelled)
  {
    ReachableInv(run, w);
  }

  /** The Stop that Work defers never marks its worker offline, since by then it has cancelled the
      context it passes on: when it returns from the attempt the row still says online, and it
      stays so in every later state. */
  lemma DeferredStopLeavesOnline(run: seq<Event>, w: Worker, call: nat)
    requires Reaches(run, w) && call < |w.stops| && w.stops[call].own
    ensures w.stops[call].pc != MarkedOffline
    ensures w.stops[call].pc == OfflineFailed ==> w.rowOnline && w.working && w.closed
  {
    ReachableInv(run, w);
    assert StopOk(w, call);
  }

  /** A Stop call that reaches its close panics exactly when an earlier Stop call failed to mark
      the worker offline; a panicked call is always preceded by such a failure. */
  lemma PanicsExactlyAfterFailure(run: seq<Event>, w: Worker, call: nat)
    requires Reaches(run, w) && StopAt(w, call, Closing)
    ensures Next(w, Close(call)).stops[call].pc == Panicked
       <==> exists i :: StopAt(w, i, OfflineFailed)
  {
    ReachableInv(run, w);
    ClosedByFailure(w, call);
    if i :| StopAt(w, i, OfflineFailed) {
      assert Failed(w);
    }
    if Failed(w) {
      var i :| 0 <= i < |w.stops| && w.stops[i].pc == OfflineFailed;
      assert StopAt(w, i, OfflineFailed);
    }
  }

  // ---- a call of Stop from end to end ----

  /** The events lead through the states, each enabled in its turn. */
  ghost predicate Path(ws: seq<Worker>, es: seq<Event>) {
    |ws| == |es| + 1 && forall k :: 0 <= k < |es| ==> Step(ws[k], es[k], ws[k + 1])
  }

  function Last(ws: seq<Worker>): Worker
    requires ws != []
  {
    ws[|ws| - 1]
  }

  lemma {:induction false} PathReaches(run: seq<Event>, ws: seq<Worker>, es: seq<Event>)
    requires Path(ws, es) && Reaches(run, ws[0])
    ensures Reaches(run + es, Last(ws))
  {
    if es == [] {
      assert run + es == run;
    } else {
      var n := |es| - 1;
      PathReaches(run, ws[..n + 1], es[..n]);
      assert Step(ws[n], es[n], ws[n + 1]);
      assert (run + es)[..|run + es| - 1] == run + es[..n];
    }
  }

  /** How a call of Stop ends that found the worker working or not and its channel closed or
      not; `marks` says whether MarkOffline succeeds. */
  function StopEnd(working: bool, closed: bool, marks: bool): StopPc {
    if !working then NothingToDo
    else if closed then Panicked
    else if marks then MarkedOffline
    else OfflineFailed
  }

  /** One more step of a Stop call. */
  lemma StopAdvances(ws: seq<Worker>, es: seq<Event>, e: Event) returns (ws': seq<Worker>, es': seq<Event>)
    requires Path(ws, es) && Enabled(Last(ws), e) && StopEvent(e)
    ensures Path(ws', es') && ws'[0] == ws[0] && es' == es + [e]
    ensures var w, w' := Last(ws), Last(ws');
      && |w'.stops| == |w.stops| && w'.stops[e.call] == w.stops[e.call].(pc := PcAfter(w, e))
      && w'.working == (w.working && !(e.MarkOffline? && e.ok))
      && w'.closed == (w.closed || e.Close?)
      && w'.cancelled == (w.cancelled || e.Cancel?)
      && w'.rowOnline == (w.rowOnline && !(e.MarkOffline? && e.ok))
      && w'.active == w.active && w'.handlings == w.handlings && w'.busy == w.busy
      && w'.loopsEnded == w.loopsEnded
      && (PcAfter(w, e) in {NothingToDo, MarkedOffline, OfflineFailed} ==> w'.mutex == None)
  {
    es' := es + [e];
    ws' := ws + [Next(Last(ws), e)];
  }

  /** What a finished call of Stop leaves, having started in `w`. */
  predicate Stopped(w: Worker, w': Worker, end: StopPc) {
    && |w'.stops| == |w.stops| + 1 && w'.stops[|w.stops|].pc == end
    && (end != Panicked ==> w'.mutex == None)
    && w'.working == (w.working && end != MarkedOffline)
    && w'.closed == (w.closed || w.working)
    && w'.cancelled == (w.cancelled || end == MarkedOffline || end == OfflineFailed)
    && w'.rowOnline == (w.rowOnline && end != MarkedOffline)
    && w'.handlings == w.handlings && w'.busy == w.busy && w'.loopsEnded == w.loopsEnded
  }

  /** The steps from the close on, with no order active. */
  lemma DrainPath(ws: seq<Worker>, es: seq<Event>, i: nat, ok: bool) returns (ws': seq<Worker>, es': seq<Event>)
    requires Path(ws, es) && StopAt(Last(ws), i, Closing) && !Last(ws).closed && Last(ws).active == 0
    ensures Path(ws', es') && ws'[0] == ws[0]
    ensures var w, w', marks := Last(ws), Last(ws'), ok && !Last(ws).stops[i].own;
      && |w'.stops| == |w.stops| && w'.stops[i].pc == (if marks then MarkedOffline else OfflineFailed)
      && w'.mutex == None && w'.closed && w'.cancelled
      && w'.working == (w.working && !marks) && w'.rowOnline == (w.rowOnline && !marks)
      && w'.handlings == w.handlings && w'.busy == w.busy && w'.loopsEnded == w.loopsEnded
  {
    ws', es' := StopAdvances(ws, es, Close(i));
    ws', es' := StopAdvances(ws', es', Wait(i));
    ws', es' := StopAdvances(ws', es', Cancel(i));
    ws', es' := StopAdvances(ws', es', MarkOffline(i, ok && !Last(ws).stops[i].own));
  }

  lemma StopPath(w: Worker, own: bool, ok: bool) returns (ws: seq<Worker>, es: seq<Event>)
    requires w.mutex == None && (own ==> w.loopsEnded)
    requires w.working && !w.closed ==> w.active == 0
    ensures Path(ws, es) && ws[0] == w
    ensures Stopped(w, Last(ws), StopEnd(w.working, w.closed, ok && !own))
  {
    var i := |w.stops|;
    ws, es := [w, Next(w, CallStop(own))], [CallStop(own)];
    ws, es := StopAdvances(ws, es, Lock(i));
    ws, es := StopAdvances(ws, es, TestWorking(i));
    if w.working && w.closed {
      ws, es := StopAdvances(ws, es, Close(i));
    } else if w.working {
      ws, es := DrainPath(ws, es, i, ok);
    }
  }

  /** After any run, a call of Stop that nothing interrupts runs through its steps to that end. */
  lemma UninterruptedStop(run: seq<Event>, w: Worker, own: bool, ok: bool) returns (es: seq<Event>, w': Worker)
    requires Reaches(run, w)
    requires w.mutex == None && (own ==> w.loopsEnded)
    requires w.working && !w.closed ==> w.active == 0
    ensures Reaches(run + es, w')
    ensures Stopped(w, w', StopEnd(w.working, w.closed, ok && !own))
  {
    var ws;
    ws, es := StopPath(w, own, ok);
    w' := Last(ws);
    PathReaches(run, ws, es);
  }

  // ---- when the drain covers every order ----

  ghost predicate SomeAdmitted(w: Worker) {
    exists i :: 0 <= i < |w.handlings| && w.handlings[i].pc == Admitted
  }

  ghost predicate SomeRunning(w: Worker) {
    exists i :: 0 <= i < |w.handlings| && w.handlings[i].pc == Running
  }

  /** The channel is closed and no handling is between its check and its Done. */
  predicate Quiescent(w: Worker) {
    w.closed && forall i :: 0 <= i < |w.handlings| ==> w.handlings[i].pc != Admitted && w.handlings[i].pc != Running
  }

  lemma QuiescentStays(w: Worker, e: Event, w': Worker)
    requires Quiescent(w) && Step(w, e, w')
    ensures Quiescent(w')
  {
    if !HandlerEvent(e) && !e.Wait? {
      FramedStep(w, e, w');
    }
  }

  lemma {:induction false} QuiescentForever(run: seq<Event>, w: Worker, run': seq<Event>, w': Worker)
    requires Reaches(run, w) && Quiescent(w) && run <= run' && Reaches(run', w')
    ensures Quiescent(w')
    decreases |run'|
  {
    if run' == run {
      assert w' == w;
    } else {
      var front := run'[..|run'| - 1];
      assert run <= front;
      var before := Exec(front).value;
      QuiescentForever(run, w, front, before);
      QuiescentStays(before, run'[|run'| - 1], w');
    }
  }

  /** Some order runs after the run with the Wait of this Stop call, in the state `w'`. */
  ghost predicate RunsLate(run: seq<Event>, call: nat, run': seq<Event>, w': Worker) {
    run + [Wait(call)] <= run' && Reaches(run', w') && SomeRunning(w')
  }

  /** The Stop call is back from MarkOffline. */
  predicate PastOffline(w: Worker, call: nat) {
    StopAt(w, call, MarkedOffline) || StopAt(w, call, OfflineFailed)
  }

  /** The drain of a Stop call is complete, whatever happens after its Wait, if and only if no
      handler stands between its check and its Add when the Wait returns; one that does can still
      be running when the call is back from MarkOffline. */
  lemma DrainCompleteExactly(run: seq<Event>, w: Worker, call: nat)
    requires Reaches(run, w) && StopAt(w, call, Waiting) && w.active == 0
    ensures (exists run', w' :: RunsLate(run, call, run', w')) <==> SomeAdmitted(w)
    ensures SomeAdmitted(w) ==> exists run', w' :: RunsLate(run, call, run', w') && PastOffline(w', call)
  {
    ReachableInv(run, w);
    if SomeAdmitted(w) {
      var run', w' := AddsLate(run, w, call);
      assert RunsLate(run, call, run', w');
    } else {
      var after, drained := Extended(run, w, Wait(call));
      NothingLeft(w, call);
      forall run', w' | RunsLate(run, call, run', w')
        ensures false
      {
        QuiescentForever(after, drained, run', w');
      }
    }
  }

  lemma NothingLeft(w: Worker, call: nat)
    requires Inv(w) && StopAt(w, call, Waiting) && w.active == 0 && !SomeAdmitted(w)
    ensures Quiescent(Next(w, Wait(call)))
  {
    Positive(w.handlings, IsRunning());
    assert StopOk(w, call);
    forall i | 0 <= i < |w.handlings|
      ensures w.handlings[i].pc != Running
    {
      assert !IsRunning()(w.handlings[i]);
    }
  }

  /** A Stop call that finds nothing active goes on from its Wait through MarkOffline. */
  lemma WaitsAndReturns(run: seq<Event>, w: Worker, call: nat) returns (run': seq<Event>, w': Worker)
    requires Reaches(run, w) && StopAt(w, call, Waiting) && w.active == 0
    ensures run + [Wait(call)] <= run' && Reaches(run', w')
    ensures PastOffline(w', call) && w'.handlings == w.handlings && w'.busy == w.busy
  {
    var ws, es := StopAdvances([w], [], Wait(call));
    ws, es := StopAdvances(ws, es, Cancel(call));
    ws, es := StopAdvances(ws, es, MarkOffline(call, false));
    PathReaches(run, ws, es);
    run', w' := run + es, Last(ws);
  }

  /** The order between check and Add is added after that. */
  lemma AddsLate(run: seq<Event>, w: Worker, call: nat) returns (run': seq<Event>, w': Worker)
    requires Reaches(run, w) && HandlersOk(w) && StopAt(w, call, Waiting) && w.active == 0 && SomeAdmitted(w)
    ensures RunsLate(run, call, run', w') && PastOffline(w', call)
  {
    var i :| 0 <= i < |w.handlings| && w.handlings[i].pc == Admitted;
    assert HandlingOk(w, i);
    run', w' := WaitsAndReturns(run, w, call);
    run', w' := Extended(run', w', Add(w.handlings[i].kind));
    assert w'.handlings[i].pc == Running;
  }

  // ---- nobody waits for ever ----

  /** A handler that runs can finish, and one that was refused can return its error. */
  lemma HandlerEnds(run: seq<Event>, w: Worker, kind: nat) returns (run': seq<Event>, w': Worker)
    requires Reaches(run, w) && (HandlerAt(w, kind, Running) || HandlerAt(w, kind, Refused))
    ensures run <= run' && Reaches(run', w') && kind !in w'.busy
  {
    if HandlerAt(w, kind, Running) {
      ReachableInv(run, w);
      RunningIsActive(w, w.busy[kind]);
      run', w' := Extended(run, w, Done(kind));
    } else {
      run', w' := Extended(run, w, ReturnError(kind));
    }
  }

  lemma AdmittedRuns(run: seq<Event>, w: Worker, kind: nat) returns (run': seq<Event>, w': Worker)
    requires Reaches(run, w) && HandlerAt(w, kind, Admitted)
    ensures run <= run' && Reaches(run', w') && HandlerAt(w', kind, Running) && Enabled(w', WriteStatus(kind))
  {
    run', w' := Extended(run, w, Add(kind));
  }

  /** The check admits a handler before the close and refuses it afterwards. */
  lemma CheckDecides(run: seq<Event>, w: Worker, kind: nat) returns (run': seq<Event>, w': Worker)
    requires Reaches(run, w) && HandlerAt(w, kind, Checking)
    ensures run <= run' && Reaches(run', w') && HandlerAt(w', kind, if w.closed then Refused else Admitted)
  {
    run', w' := Extended(run, w, Check(kind));
  }

  /** In every reachable state each loop can get through the delivery it is in. */
  lemma LoopReturns(run: seq<Event>, w: Worker, kind: nat) returns (run': seq<Event>, w': Worker)
    requires Reaches(run, w) && kind in w.busy
    ensures run <= run' && Reaches(run', w') && kind !in w'.busy
  {
    BusyPc(run, w, kind);
    run', w' := run, w;
    if HandlerAt(w, kind, Checking) {
      run', w' := CheckDecides(run', w', kind);
    }
    if HandlerAt(w', kind, Admitted) {
      run', w' := AdmittedRuns(run', w', kind);
    }
    run', w' := HandlerEnds(run', w', kind);
  }

  lemma BusyPc(run: seq<Event>, w: Worker, kind: nat)
    requires Reaches(run, w) && kind in w.busy
    ensures HandlerAt(w, kind, Checking) || HandlerAt(w, kind, Admitted)
         || HandlerAt(w, kind, Running) || HandlerAt(w, kind, Refused)
  {
    ReachableInv(run, w);
    assert HandlingOk(w, w.busy[kind]);
  }

  lemma RunningIsActive(w: Worker, i: nat)
    requires HandlersOk(w) && i < |w.handlings| && w.handlings[i].pc == Running
    ensures w.active > 0
  {
    Positive(w.handlings, IsRunning());
    assert IsRunning()(w.handlings[i]);
  }

  /** In every reachable state, a Stop call that waits for active orders can come to its end. */
  lemma {:induction false} StopFinishes(run: seq<Event>, w: Worker, call: nat) returns (run': seq<Event>, w': Worker)
    requires Reaches(run, w) && StopAt(w, call, Waiting)
    ensures run <= run' && Reaches(run', w') && PastOffline(w', call)
    decreases w.active
  {
    if w.active == 0 {
      run', w' := WaitsAndReturns(run, w, call);
    } else {
      ReachableInv(run, w);
      var kind := ActiveKind(w);
      run', w' := Extended(run, w, Done(kind));
      run', w' := StopFinishes(run', w', call);
    }
  }

  lemma ActiveKind(w: Worker) returns (kind: nat)
    requires HandlersOk(w) && w.active > 0
    ensures HandlerAt(w, kind, Running)
  {
    Positive(w.handlings, IsRunning());
    var i :| 0 <= i < |w.handlings| && IsRunning()(w.handlings[i]);
    assert HandlingOk(w, i);
    kind := w.handlings[i].kind;
  }

  // ---- the drain can miss an order ----

  lemma Extended(run: seq<Event>, w: Worker, e: Event) returns (run': seq<Event>, w': Worker)
    requires Reaches(run, w) && Enabled(w, e)
    ensures run' == run + [e] && Reaches(run', w') && w' == Next(w, e)
  {
    run', w' := run + [e], Next(w, e);
    assert run'[..|run|] == run;
  }

  /** A worker can be marked offline with an order running: one that passed its check before the
      close and did its Add after the Wait had found nothing to wait for. */
  lemma DrainCanMissAnOrder() returns (run: seq<Event>, w: Worker)
    ensures Reaches(run, w) && StopAt(w, 0, MarkedOffline) && !w.rowOnline
    ensures HandlerAt(w, 0, Running)
  {
    run, w := Extended([], Created, MarkOnline);
    run, w := Extended(run, w, Deliver(0));
    run, w := Extended(run, w, Check(0));
    var stop;
    stop, w := UninterruptedStop(run, w, false, true);
    run, w := Extended(run + stop, w, Add(0));
  }

  /** A delivery can still come after the close; it is refused. */
  lemma RefusalHappens() returns (run: seq<Event>, w: Worker)
    ensures Reaches(run, w) && HandlerAt(w, 0, Refused) && StopAt(w, 0, MarkedOffline)
  {
    run, w := Extended([], Created, MarkOnline);
    var stop;
    stop, w := UninterruptedStop(run, w, false, true);
    run, w := Extended(run + stop, w, Deliver(0));
    run, w := Extended(run, w, Check(0));
  }

  /** The deferred Stop of a worker whose loops have ended fails to mark it offline, and the next
      call of Stop closes the closed channel. */
  lemma SecondStopPanics() returns (run: seq<Event>, w: Worker, run': seq<Event>, w': Worker)
    ensures Reaches(run, w) && |w.stops| == 1 && StopAt(w, 0, OfflineFailed) && w.working
    ensures run <= run' && Reaches(run', w') && StopAt(w', 1, Panicked)
  {
    run, w := Extended([], Created, MarkOnline);
    run, w := Extended(run, w, EndLoops);
    var first;
    first, w := UninterruptedStop(run, w, true, true);
    run := run + first;
    var second;
    second, w' := UninterruptedStop(run, w, false, true);
    run' := run + second;
  }
}
