/**
 * The lock counts of queue.c: while a task decides whether to block, interrupts may still post and
 * take items but must leave the event lists alone, so the wakeups they owe are counted and paid
 * when the queue is unlocked.  Proved over every interleaving: no wakeup is lost.
 */
module QueueLocks {
  import opened Rings
  import Timeline

  type Task = Timeline.Task

  /** How far a task in the retry loop of a send (`receiving` false) or a receive has come. */
  datatype Stage =
    | Free                               // the scheduler runs and the queue is unlocked
    | Locked(t: Task, receiving: bool)   // prvLockQueue has been done
    | Decided(t: Task, receiving: bool)  // the queue was found empty, or full
    | Leaving                            // prvUnlockQueue is next
    | TxDone                             // its first critical section has been done

  /** The value of a lock count after an increment of an int8_t. */
  function Inc(x: int): int { if x == 127 then -128 else x + 1 }

  /** The wakeups a lock count stands for. */
  function Owed(lock: int): nat { if lock > 0 then lock else 0 }

  datatype Q = Q(
    length: nat,             // uxLength
    copies: bool,            // is uxItemSize above zero?
    messages: nat,           // uxMessagesWaiting
    receivers: seq<Task>,    // xTasksWaitingToReceive
    senders: seq<Task>,      // xTasksWaitingToSend
    txLock: int,             // cTxLock
    rxLock: int,             // cRxLock
    wokenR: set<Task>,       // receivers taken off the list that have not looked at the queue again
    wokenS: set<Task>,       // and senders
    stage: Stage)
  {
    function WakeReceiver(): Q {
      if receivers == [] then this else this.(receivers := receivers[1..], wokenR := wokenR + {receivers[0]})
    }

    function WakeSender(): Q {
      if senders == [] then this else this.(senders := senders[1..], wokenS := wokenS + {senders[0]})
    }

    predicate Accepts(overwrite: bool) { messages < length || overwrite }

    /** `prvCopyDataToQueue`, as far as the count goes. */
    function Post(overwrite: bool): Q {
      if overwrite && copies && messages > 0 then this else this.(messages := messages + 1)
    }

    /** The critical section of `xQueueGenericSend`. */
    function TaskSend(t: Task, overwrite: bool): Q {
      var s := this.(wokenS := wokenS - {t});
      if Accepts(overwrite) then s.Post(overwrite).WakeReceiver() else s
    }

    /** The critical section of `xQueueGenericReceive`. */
    function TaskReceive(t: Task): Q {
      var s := this.(wokenR := wokenR - {t});
      if messages > 0 then s.(messages := messages - 1).WakeSender() else s
    }

    function TaskPeek(t: Task): Q {
      var s := this.(wokenR := wokenR - {t});
      if messages > 0 then s.WakeReceiver() else s
    }

    /** `xQueueGenericSendFromISR` and `xQueueGiveFromISR`. */
    function IsrSend(overwrite: bool): Q {
      if !Accepts(overwrite) then this
      else if txLock == -1 then Post(overwrite).WakeReceiver()
      else Post(overwrite).(txLock := Inc(txLock))
    }

    /** `xQueueReceiveFromISR`. */
    function IsrReceive(): Q {
      if messages == 0 then this
      else if rxLock == -1 then this.(messages := messages - 1).WakeSender()
      else this.(messages := messages - 1, rxLock := Inc(rxLock))
    }

    /** `prvLockQueue`. */
    function Lock(t: Task, receiving: bool): Q {
      this.(txLock := if txLock == -1 then 0 else txLock, rxLock := if rxLock == -1 then 0 else rxLock,
            stage := Locked(t, receiving))
    }

    /** `prvIsQueueEmpty` or `prvIsQueueFull`. */
    function Decide(): Q {
      if stage.Locked? && (if stage.receiving then messages == 0 else messages == length)
      then this.(stage := Decided(stage.t, stage.receiving)) else this.(stage := Leaving)
    }

    /** `vTaskPlaceOnEventList`, at the place `k` of the task's priority. */
    function Place(k: nat): Q {
      if !stage.Decided? then this
      else if stage.receiving then
        if k <= |receivers| then this.(receivers := With(receivers, k, stage.t), stage := Leaving) else this
      else
        if k <= |senders| then this.(senders := With(senders, k, stage.t), stage := Leaving) else this
    }

    /** The loops of `prvUnlockQueue`. */
    function DrainTx(n: int): Q
      decreases n
    {
      if n > 0 && receivers != [] then WakeReceiver().DrainTx(n - 1) else this
    }

    function DrainRx(n: int): Q
      decreases n
    {
      if n > 0 && senders != [] then WakeSender().DrainRx(n - 1) else this
    }

    function UnlockTx(): Q { DrainTx(txLock).(txLock := -1, stage := TxDone) }

    function UnlockRx(): Q { DrainRx(rxLock).(rxLock := -1, stage := Free) }

    /** A blocked task times out and leaves its list. */
    function Timeout(t: Task): Q {
      this.(receivers := if t in receivers then Without(receivers, IndexOf(receivers, t)) else receivers,
            senders := if t in senders then Without(senders, IndexOf(senders, t)) else senders)
    }

    /** `xQueueGenericReset` of a queue in use: one sender is woken. */
    function Reset(): Q {
      this.(messages := 0, txLock := -1, rxLock := -1).WakeSender()
    }

    predicate Idle(t: Task) {
      t !in receivers && t !in senders
    }
  }

  datatype Step =
    | TaskSend(t: Task, overwrite: bool) | TaskReceive(t: Task) | TaskPeek(t: Task)
    | IsrSend(overwrite: bool) | IsrReceive
    | Lock(t: Task, receiving: bool) | GiveUp | Decide | Place(k: nat) | UnlockTx | UnlockRx
    | Timeout(t: Task) | Reset

  function Apply(s: Q, step: Step): Q {
    match step
    case TaskSend(t, overwrite) => s.TaskSend(t, overwrite)
    case TaskReceive(t) => s.TaskReceive(t)
    case TaskPeek(t) => s.TaskPeek(t)
    case IsrSend(overwrite) => s.IsrSend(overwrite)
    case IsrReceive => s.IsrReceive()
    case Lock(t, receiving) => s.Lock(t, receiving)
    case GiveUp => s.(stage := Leaving)
    case Decide => s.Decide()
    case Place(k) => s.Place(k)
    case UnlockTx => s.UnlockTx()
    case UnlockRx => s.UnlockRx()
    case Timeout(t) => s.Timeout(t)
    case Reset => s.Reset()
  }

  /**
   * Tasks take steps only while the scheduler runs, a locker only the next step of its loop, and
   * interrupts step at any time.  A task begins to lock after it has looked at the queue.
   */
  ghost predicate Enabled(s: Q, step: Step) {
    match step
    case TaskSend(t, overwrite) => s.stage == Free && s.Idle(t) && (overwrite ==> s.length == 1)
    case TaskReceive(t) => s.stage == Free && s.Idle(t)
    case TaskPeek(t) => s.stage == Free && s.Idle(t)
    case IsrSend(overwrite) => overwrite ==> s.length == 1
    case IsrReceive => true
    case Lock(t, receiving) => s.stage == Free && s.Idle(t) && t !in s.wokenR && t !in s.wokenS
    case GiveUp => s.stage.Locked?
    case Decide => s.stage.Locked?
    case Place(k) => s.stage.Decided? && k <= |if s.stage.receiving then s.receivers else s.senders|
    case UnlockTx => s.stage == Leaving
    case UnlockRx => s.stage == TxDone
    case Timeout(t) => s.stage == Free
    case Reset => s.stage == Free
  }

  // ----- the invariant -----

  /** A task is in one place: on a list, woken, or holding the lock. */
  ghost predicate Apart(list: seq<Task>, woken: set<Task>, stage: Stage, receiving: bool) {
    && NoDup(list) && (forall t :: t in list ==> t !in woken)
    && ((stage.Locked? || stage.Decided?) && stage.receiving == receiving ==> stage.t !in list && stage.t !in woken)
  }

  /** Is anyone waiting to receive, or sure to? */
  predicate ReceiverWaits(s: Q) { s.receivers != [] || (s.stage.Decided? && s.stage.receiving) }

  predicate SenderWaits(s: Q) { s.senders != [] || (s.stage.Decided? && !s.stage.receiving) }

  /** The receivers are apart, and cTxLock is an int8_t that counts only while the queue is locked. */
  ghost predicate StructR(s: Q) {
    && Apart(s.receivers, s.wokenR, s.stage, true)
    && -128 <= s.txLock <= 127 && (s.stage == Free || s.stage == TxDone ==> s.txLock == -1)
  }

  ghost predicate StructS(s: Q) {
    && Apart(s.senders, s.wokenS, s.stage, false)
    && -128 <= s.rxLock <= 127 && (s.stage == Free ==> s.rxLock == -1)
  }

  /** Every message that a waiting receiver could have has a receiver on its way, or is counted. */
  predicate AccountR(s: Q) { ReceiverWaits(s) ==> s.messages <= |s.wokenR| + Owed(s.txLock) }

  /** Every free place that a waiting sender could fill has a sender on its way, or is counted. */
  predicate AccountS(s: Q) { SenderWaits(s) ==> s.length - s.messages <= |s.wokenS| + Owed(s.rxLock) }

  lemma DrainTxWakes(s: Q, n: int) returns (r: Q)
    requires NoDup(s.receivers) && forall t :: t in s.receivers ==> t !in s.wokenR
    ensures r == s.DrainTx(n) && r == s.(receivers := r.receivers, wokenR := r.wokenR)
    ensures NoDup(r.receivers) && forall t :: t in r.receivers ==> t in s.receivers && t !in r.wokenR
    ensures r.receivers == [] || |r.wokenR| == |s.wokenR| + Owed(n)
    decreases n
  {
    r := s.DrainTx(n);
    if n > 0 && s.receivers != [] {
      var u := s.WakeReceiver();
      assert forall t :: t in u.receivers ==> t in s.receivers;
      var r' := DrainTxWakes(u, n - 1);
    }
  }

  lemma DrainRxWakes(s: Q, n: int) returns (r: Q)
    requires NoDup(s.senders) && forall t :: t in s.senders ==> t !in s.wokenS
    ensures r == s.DrainRx(n) && r == s.(senders := r.senders, wokenS := r.wokenS)
    ensures NoDup(r.senders) && forall t :: t in r.senders ==> t in s.senders && t !in r.wokenS
    ensures r.senders == [] || |r.wokenS| == |s.wokenS| + Owed(n)
    decreases n
  {
    r := s.DrainRx(n);
    if n > 0 && s.senders != [] {
      var u := s.WakeSender();
      assert forall t :: t in u.senders ==> t in s.senders;
      var r' := DrainRxWakes(u, n - 1);
    }
  }

  lemma {:induction false} DrainRxOnly(s: Q, n: int)
    ensures s.DrainRx(n) == s.(senders := s.DrainRx(n).senders, wokenS := s.DrainRx(n).wokenS)
    decreases n
  {
    if n > 0 && s.senders != [] { DrainRxOnly(s.WakeSender(), n - 1); }
  }

  lemma {:induction false} DrainTxOnly(s: Q, n: int)
    ensures s.DrainTx(n) == s.(receivers := s.DrainTx(n).receivers, wokenR := s.DrainTx(n).wokenR)
    decreases n
  {
    if n > 0 && s.receivers != [] { DrainTxOnly(s.WakeReceiver(), n - 1); }
  }

  function Members(ts: seq<Task>): set<Task> { set t | t in ts }

  /** How many of the tasks on `list` the wakeups counted by `lock` reach. */
  function Reached(lock: int, list: seq<Task>): nat { if Owed(lock) < |list| then Owed(lock) else |list| }

  /** Unlocking wakes the waiters at the front, one for each counted post, and no others. */
  lemma {:induction false} DrainTxIs(s: Q, n: int)
    ensures var k := Reached(n, s.receivers);
      s.DrainTx(n) == s.(receivers := s.receivers[k..], wokenR := s.wokenR + Members(s.receivers[..k]))
    decreases n
  {
    var k := Reached(n, s.receivers);
    if n > 0 && s.receivers != [] {
      DrainTxIs(s.WakeReceiver(), n - 1);
      assert s.receivers[..k] == [s.receivers[0]] + s.receivers[1..][..k - 1];
    } else {
      assert s.receivers[..0] == [] && s.wokenR + Members([]) == s.wokenR;
    }
  }

  lemma {:induction false} DrainRxIs(s: Q, n: int)
    ensures var k := Reached(n, s.senders);
      s.DrainRx(n) == s.(senders := s.senders[k..], wokenS := s.wokenS + Members(s.senders[..k]))
    decreases n
  {
    var k := Reached(n, s.senders);
    if n > 0 && s.senders != [] {
      DrainRxIs(s.WakeSender(), n - 1);
      assert s.senders[..k] == [s.senders[0]] + s.senders[1..][..k - 1];
    } else {
      assert s.senders[..0] == [] && s.wokenS + Members([]) == s.wokenS;
    }
  }

  /** The first of the waiters, if any, leaves the list and is on its way. */
  ghost predicate FirstWoken(list: seq<Task>, list': seq<Task>, woken: set<Task>, woken': set<Task>) {
    if list == [] then list' == [] && woken' == woken else list' == list[1..] && woken' == woken + {list[0]}
  }

  /** A locker blocks exactly if the queue holds nothing for a receiver, or as much as it can for a sender. */
  lemma DecidesToBlock(s: Q)
    requires s.stage.Locked?
    ensures var r := s.Decide();
      && (r.stage == Decided(s.stage.t, s.stage.receiving) <==> if s.stage.receiving then s.messages == 0 else s.messages == s.length)
      && (r.stage.Decided? || r.stage == Leaving) && r == s.(stage := r.stage)
  {
  }

  // ----- every step -----

  /**
   * An interrupt posts, and neither counts the post nor wakes a receiver for it: cTxLock is at its
   * largest value, or has passed it, or nobody is on the list to be woken.
   */
  predicate UncountedPost(s: Q, step: Step) {
    step.IsrSend? && s.Accepts(step.overwrite) && (s.txLock == 127 || s.txLock < -1 || (s.txLock == -1 && s.receivers == []))
  }

  predicate UncountedTake(s: Q, step: Step) {
    step.IsrReceive? && s.messages > 0 && (s.rxLock == 127 || s.rxLock < -1 || (s.rxLock == -1 && s.senders == []))
  }

  /** The post is not counted, a receiver waits, and not enough receivers are on their way. */
  predicate LosesPost(s: Q, step: Step) {
    UncountedPost(s, step) && ReceiverWaits(s) && s.Post(step.overwrite).messages > |s.wokenR|
  }

  predicate LosesTake(s: Q, step: Step) {
    UncountedTake(s, step) && SenderWaits(s) && s.length - (s.messages - 1) > |s.wokenS|
  }

  /** A reset frees every place but wakes one sender. */
  predicate ResetStrands(s: Q, step: Step) {
    step.Reset? && |s.senders| > 1 && |s.wokenS| + 1 < s.length
  }

  predicate Strands(s: Q, step: Step) { LosesTake(s, step) || ResetStrands(s, step) }

  lemma PlaceApart(list: seq<Task>, k: nat, t: Task)
    requires NoDup(list) && t !in list && k <= |list|
    ensures NoDup(With(list, k, t)) && forall u :: u in With(list, k, t) <==> u == t || u in list
  {
    WithMembers(list, k, t);
  }

  lemma TimeoutApart(list: seq<Task>, t: Task)
    requires NoDup(list) && t in list
    ensures NoDup(Without(list, IndexOf(list, t))) && forall u :: u in Without(list, IndexOf(list, t)) ==> u in list
  {
    WithoutMembers(list, IndexOf(list, t));
  }

  lemma WakesReceiver(s: Q)
    requires Apart(s.receivers, s.wokenR, s.stage, true)
    ensures var u := s.WakeReceiver();
      && u == s.(receivers := u.receivers, wokenR := u.wokenR) && Apart(u.receivers, u.wokenR, s.stage, true)
      && (u.receivers != [] ==> s.receivers != [] && |u.wokenR| == |s.wokenR| + 1)
  {
  }

  lemma WakesSender(s: Q)
    requires Apart(s.senders, s.wokenS, s.stage, false)
    ensures var u := s.WakeSender();
      && u == s.(senders := u.senders, wokenS := u.wokenS) && Apart(u.senders, u.wokenS, s.stage, false)
      && (u.senders != [] ==> s.senders != [] && |u.wokenS| == |s.wokenS| + 1)
  {
  }

  lemma TaskStepR(s: Q, step: Step)
    requires StructR(s) && Enabled(s, step) && (step.TaskSend? || step.TaskReceive? || step.TaskPeek?)
    ensures StructR(Apply(s, step)) && (AccountR(s) ==> (AccountR(Apply(s, step)) <==> !LosesPost(s, step)))
  {
    hide Q.WakeReceiver, NoDup;
    match step {
      case TaskSend(t, overwrite) => SendR(s, t, overwrite);
      case TaskReceive(t) => LookR(s, t);
      case TaskPeek(t) => LookR(s, t);
    }
    hide StructR, AccountR;
  }

  lemma SendR(s: Q, t: Task, overwrite: bool)
    requires StructR(s) && s.stage == Free
    ensures StructR(s.TaskSend(t, overwrite)) && (AccountR(s) ==> AccountR(s.TaskSend(t, overwrite)))
  {
    var u := s.(wokenS := s.wokenS - {t}).Post(overwrite);
    WakesReceiver(u);
    hide Q.WakeReceiver, Apart;
  }

  /** A receiver or peeker that looks at the queue is no longer on its way. */
  lemma LookR(s: Q, t: Task)
    requires StructR(s) && s.stage == Free && s.Idle(t)
    ensures StructR(s.TaskReceive(t)) && (AccountR(s) ==> AccountR(s.TaskReceive(t)))
    ensures StructR(s.TaskPeek(t)) && (AccountR(s) ==> AccountR(s.TaskPeek(t)))
  {
    var u := s.(wokenR := s.wokenR - {t});
    assert |u.wokenR| >= |s.wokenR| - 1;
    assert Apart(u.receivers, u.wokenR, u.stage, true) by { hide NoDup; }
    WakesReceiver(u);
    hide Q.WakeReceiver, Q.WakeSender, Apart;
    WakesNoReceiver(u.(messages := if s.messages > 0 then s.messages - 1 else 0));
  }

  lemma WakesNoReceiver(s: Q)
    ensures s.WakeSender() == s.(senders := s.WakeSender().senders, wokenS := s.WakeSender().wokenS)
  {
  }

  lemma IsrStepR(s: Q, step: Step)
    requires StructR(s) && Enabled(s, step) && (step.IsrSend? || step.IsrReceive?)
    ensures StructR(Apply(s, step)) && (AccountR(s) ==> (AccountR(Apply(s, step)) <==> !LosesPost(s, step)))
  {
    if step.IsrSend? { PostR(s, step.overwrite); }
    hide Q.WakeReceiver, Q.IsrSend, Apart;
  }

  lemma PostR(s: Q, overwrite: bool)
    requires StructR(s)
    ensures StructR(s.IsrSend(overwrite)) && (AccountR(s) ==> (AccountR(s.IsrSend(overwrite)) <==> !LosesPost(s, IsrSend(overwrite))))
  {
    WakesReceiver(s.Post(overwrite));
    hide Q.WakeReceiver, Apart;
  }

  lemma LockStepR(s: Q, step: Step)
    requires StructR(s) && Enabled(s, step) && (step.Lock? || step.GiveUp? || step.Decide?)
    ensures StructR(Apply(s, step)) && (AccountR(s) ==> (AccountR(Apply(s, step)) <==> !LosesPost(s, step)))
  {
  }

  lemma ListStepR(s: Q, step: Step)
    requires StructR(s) && Enabled(s, step) && (step.Place? || step.Timeout? || step.Reset?)
    ensures StructR(Apply(s, step)) && (AccountR(s) ==> (AccountR(Apply(s, step)) <==> !LosesPost(s, step)))
  {
    if step.Place? && s.stage.receiving == true { PlaceApart(s.receivers, step.k, s.stage.t); }
    if step.Timeout? && step.t in s.receivers { TimeoutApart(s.receivers, step.t); }
  }

  lemma UnlockStepR(s: Q, step: Step)
    requires StructR(s) && Enabled(s, step) && (step.UnlockTx? || step.UnlockRx?)
    ensures StructR(Apply(s, step)) && (AccountR(s) ==> (AccountR(Apply(s, step)) <==> !LosesPost(s, step)))
  {
    var r := DrainTxWakes(s, s.txLock);
    DrainRxOnly(s, s.rxLock);
    hide Q.DrainTx, Q.DrainRx;
  }

  /** A step keeps the receivers' account exactly when it is not a post that loses a wakeup. */
  lemma StepR(s: Q, step: Step)
    requires StructR(s) && Enabled(s, step)
    ensures StructR(Apply(s, step)) && (AccountR(s) ==> (AccountR(Apply(s, step)) <==> !LosesPost(s, step)))
  {
    hide StructR, AccountR, Enabled, Apply, LosesPost;
    match step {
      case TaskSend(_, _) => TaskStepR(s, step);
      case TaskReceive(_) => TaskStepR(s, step);
      case TaskPeek(_) => TaskStepR(s, step);
      case IsrSend(_) => IsrStepR(s, step);
      case IsrReceive => IsrStepR(s, step);
      case Lock(_, _) => LockStepR(s, step);
      case GiveUp => LockStepR(s, step);
      case Decide => LockStepR(s, step);
      case Place(_) => ListStepR(s, step);
      case Timeout(_) => ListStepR(s, step);
      case Reset => ListStepR(s, step);
      case UnlockTx => UnlockStepR(s, step);
      case UnlockRx => UnlockStepR(s, step);
    }
  }

  lemma TaskStepS(s: Q, step: Step)
    requires StructS(s) && Enabled(s, step) && (step.TaskSend? || step.TaskReceive? || step.TaskPeek?)
    ensures StructS(Apply(s, step)) && (AccountS(s) ==> (AccountS(Apply(s, step)) <==> !Strands(s, step)))
  {
    match step {
      case TaskSend(t, overwrite) => SendS(s, t, overwrite);
      case TaskReceive(t) => if s.messages > 0 { WakesSender(s.(wokenR := s.wokenR - {t}, messages := s.messages - 1)); }
      case TaskPeek(t) =>
    }
    hide Q.WakeSender, Q.TaskSend, NoDup;
  }

  /** A sender that looks at the queue is no longer on its way. */
  lemma SendS(s: Q, t: Task, overwrite: bool)
    requires StructS(s) && s.stage == Free && s.Idle(t) && (overwrite ==> s.length == 1)
    ensures StructS(s.TaskSend(t, overwrite)) && (AccountS(s) ==> AccountS(s.TaskSend(t, overwrite)))
  {
    assert |s.wokenS - {t}| >= |s.wokenS| - 1;
    hide NoDup;
  }

  lemma IsrStepS(s: Q, step: Step)
    requires StructS(s) && Enabled(s, step) && (step.IsrSend? || step.IsrReceive?)
    ensures StructS(Apply(s, step)) && (AccountS(s) ==> (AccountS(Apply(s, step)) <==> !Strands(s, step)))
  {
  }

  lemma LockStepS(s: Q, step: Step)
    requires StructS(s) && Enabled(s, step) && (step.Lock? || step.GiveUp? || step.Decide?)
    ensures StructS(Apply(s, step)) && (AccountS(s) ==> (AccountS(Apply(s, step)) <==> !Strands(s, step)))
  {
  }

  lemma ListStepS(s: Q, step: Step)
    requires StructS(s) && Enabled(s, step) && (step.Place? || step.Timeout? || step.Reset?)
    ensures StructS(Apply(s, step)) && (AccountS(s) ==> (AccountS(Apply(s, step)) <==> !Strands(s, step)))
  {
    if step.Reset? {
      ResetS(s);
    } else {
      if step.Place? && s.stage.receiving == false { PlaceApart(s.senders, step.k, s.stage.t); }
      if step.Timeout? && step.t in s.senders { TimeoutApart(s.senders, step.t); }
    }
    hide NoDup, Q.Reset, With, Without;
  }

  lemma ResetS(s: Q)
    requires StructS(s) && s.stage == Free
    ensures StructS(s.Reset()) && (AccountS(s) ==> (AccountS(s.Reset()) <==> !ResetStrands(s, Reset)))
  {
    var u := s.(messages := 0, txLock := -1, rxLock := -1);
    WakesSender(u);
    assert |s.senders| > 1 <==> u.WakeSender().senders != [];
    assert |s.senders| > 1 ==> |u.WakeSender().wokenS| == |s.wokenS| + 1;
    hide Q.WakeSender, Apart;
  }

  lemma UnlockStepS(s: Q, step: Step)
    requires StructS(s) && Enabled(s, step) && (step.UnlockTx? || step.UnlockRx?)
    ensures StructS(Apply(s, step)) && (AccountS(s) ==> (AccountS(Apply(s, step)) <==> !Strands(s, step)))
  {
    var r := DrainRxWakes(s, s.rxLock);
    DrainTxOnly(s, s.txLock);
    hide Q.DrainTx, Q.DrainRx;
  }

  /** A step keeps the senders' account exactly when it neither is a take that loses a wakeup nor a reset that strands them. */
  lemma StepS(s: Q, step: Step)
    requires StructS(s) && Enabled(s, step)
    ensures StructS(Apply(s, step)) && (AccountS(s) ==> (AccountS(Apply(s, step)) <==> !Strands(s, step)))
  {
    hide StructS, AccountS, Enabled, Apply, Strands;
    match step {
      case TaskSend(_, _) => TaskStepS(s, step);
      case TaskReceive(_) => TaskStepS(s, step);
      case TaskPeek(_) => TaskStepS(s, step);
      case IsrSend(_) => IsrStepS(s, step);
      case IsrReceive => IsrStepS(s, step);
      case Lock(_, _) => LockStepS(s, step);
      case GiveUp => LockStepS(s, step);
      case Decide => LockStepS(s, step);
      case Place(_) => ListStepS(s, step);
      case Timeout(_) => ListStepS(s, step);
      case Reset => ListStepS(s, step);
      case UnlockTx => UnlockStepS(s, step);
      case UnlockRx => UnlockStepS(s, step);
    }
  }

  // ----- whole runs -----

  ghost predicate Legal(s: Q, steps: seq<Step>)
    decreases |steps|
  {
    steps == [] || (Enabled(s, steps[0]) && Legal(Apply(s, steps[0]), steps[1..]))
  }

  function Run(s: Q, steps: seq<Step>): Q
    decreases |steps|
  {
    if steps == [] then s else Run(Apply(s, steps[0]), steps[1..])
  }

  ghost predicate AlwaysR(s: Q, steps: seq<Step>)
    decreases |steps|
  {
    AccountR(s) && (steps == [] || AlwaysR(Apply(s, steps[0]), steps[1..]))
  }

  ghost predicate AlwaysS(s: Q, steps: seq<Step>)
    decreases |steps|
  {
    AccountS(s) && (steps == [] || AlwaysS(Apply(s, steps[0]), steps[1..]))
  }

  predicate NeverLosesPost(s: Q, steps: seq<Step>)
    decreases |steps|
  {
    steps == [] || (!LosesPost(s, steps[0]) && NeverLosesPost(Apply(s, steps[0]), steps[1..]))
  }

  predicate NeverStrands(s: Q, steps: seq<Step>)
    decreases |steps|
  {
    steps == [] || (!Strands(s, steps[0]) && NeverStrands(Apply(s, steps[0]), steps[1..]))
  }

  /** The receivers' account is right in every state of a run exactly when no post loses a wakeup. */
  lemma {:induction false} RunR(s: Q, steps: seq<Step>)
    requires StructR(s) && AccountR(s) && Legal(s, steps)
    ensures AlwaysR(s, steps) <==> NeverLosesPost(s, steps)
    ensures NeverLosesPost(s, steps) ==> AccountR(Run(s, steps)) && StructR(Run(s, steps))
    decreases |steps|
  {
    hide StructR, AccountR, Enabled, Apply, LosesPost;
    if steps != [] {
      StepR(s, steps[0]);
      if AccountR(Apply(s, steps[0])) { RunR(Apply(s, steps[0]), steps[1..]); }
    }
  }

  /** The senders' account, exactly when no take loses a wakeup and no reset strands senders. */
  lemma {:induction false} RunS(s: Q, steps: seq<Step>)
    requires StructS(s) && AccountS(s) && Legal(s, steps)
    ensures AlwaysS(s, steps) <==> NeverStrands(s, steps)
    ensures NeverStrands(s, steps) ==> AccountS(Run(s, steps)) && StructS(Run(s, steps))
    decreases |steps|
  {
    hide StructS, AccountS, Enabled, Apply, Strands;
    if steps != [] {
      StepS(s, steps[0]);
      if AccountS(Apply(s, steps[0])) { RunS(Apply(s, steps[0]), steps[1..]); }
    }
  }

  function NewQueue(length: nat, copies: bool): Q {
    Q(length, copies, 0, [], [], -1, -1, {}, {}, Free)
  }

  /**
   * No wakeup is lost: after a run from a new queue in which no step loses one, whenever the queue is
   * unlocked and a task still waits to receive, every message present has a receiver on its way to
   * it; and likewise every free place while a task waits to send.
   */
  lemma NoWakeupLost(length: nat, copies: bool, steps: seq<Step>)
    requires Legal(NewQueue(length, copies), steps)
    ensures var r := Run(NewQueue(length, copies), steps);
      && (NeverLosesPost(NewQueue(length, copies), steps) && r.stage == Free && r.receivers != [] ==> r.messages <= |r.wokenR|)
      && (NeverStrands(NewQueue(length, copies), steps) && r.stage == Free && r.senders != [] ==>
            r.length - r.messages <= |r.wokenS|)
  {
    var s := NewQueue(length, copies);
    assert StructR(s) && AccountR(s) && StructS(s) && AccountS(s);
    RunR(s, steps);
    RunS(s, steps);
    hide Run, Legal, NeverLosesPost, NeverStrands;
  }

  // ----- runs without overflow -----

  /** An interrupt counts a post when cTxLock has reached the largest int8_t. */
  predicate PostOverflows(s: Q, step: Step) { step.IsrSend? && s.Accepts(step.overwrite) && s.txLock == 127 }

  predicate TakeOverflows(s: Q, step: Step) { step.IsrReceive? && s.messages > 0 && s.rxLock == 127 }

  predicate NoOverflow(s: Q, steps: seq<Step>)
    decreases |steps|
  {
    steps == [] || (!PostOverflows(s, steps[0]) && !TakeOverflows(s, steps[0]) && NoOverflow(Apply(s, steps[0]), steps[1..]))
  }

  predicate NoneStranded(s: Q, steps: seq<Step>)
    decreases |steps|
  {
    steps == [] || (!ResetStrands(s, steps[0]) && NoneStranded(Apply(s, steps[0]), steps[1..]))
  }

  /** While the queue is locked both counts are at zero or above. */
  predicate Counting(s: Q) {
    && (if s.stage == Free || s.stage == TxDone then s.txLock == -1 else 0 <= s.txLock <= 127)
    && (if s.stage == Free then s.rxLock == -1 else 0 <= s.rxLock <= 127)
  }

  /** In the counting range a post or take is lost only by an overflow. */
  lemma CountingStep(s: Q, step: Step)
    requires Counting(s) && Enabled(s, step) && !PostOverflows(s, step) && !TakeOverflows(s, step)
    ensures Counting(Apply(s, step)) && !LosesPost(s, step) && !LosesTake(s, step)
  {
    DrainTxOnly(s, s.txLock);
    DrainRxOnly(s, s.rxLock);
    hide Q.DrainTx, Q.DrainRx, With, Without;
  }

  /** A run in which neither count overflows and no reset strands senders loses no wakeup. */
  lemma {:induction false} CountingRun(s: Q, steps: seq<Step>)
    requires Counting(s) && Legal(s, steps) && NoOverflow(s, steps)
    ensures NeverLosesPost(s, steps) && (NoneStranded(s, steps) ==> NeverStrands(s, steps))
    decreases |steps|
  {
    hide Counting, Enabled, Apply, PostOverflows, TakeOverflows, LosesPost, LosesTake, ResetStrands;
    if steps != [] {
      CountingStep(s, steps[0]);
      CountingRun(Apply(s, steps[0]), steps[1..]);
    }
  }

  // ----- the overflow is real -----

  function Posts(n: nat): seq<Step> {
    if n == 0 then [] else [IsrSend(false)] + Posts(n - 1)
  }

  lemma {:induction false} PostsCount(s: Q, n: nat, rest: seq<Step>)
    requires 0 <= s.txLock && s.txLock + n <= 127 && s.messages + n <= s.length && s.copies
    ensures Run(s, Posts(n) + rest) == Run(s.(messages := s.messages + n, txLock := s.txLock + n), rest)
    decreases n
  {
    if n == 0 {
      assert Posts(0) + rest == rest;
    } else {
      assert (Posts(n) + rest)[0] == IsrSend(false) && (Posts(n) + rest)[1..] == Posts(n - 1) + rest;
      PostsCount(s.IsrSend(false), n - 1, rest);
    }
  }

  lemma RunCons(s: Q, step: Step, rest: seq<Step>)
    ensures Run(s, [step] + rest) == Run(Apply(s, step), rest)
  {
    assert ([step] + rest)[1..] == rest;
  }

  /**
   * Reached: 128 interrupt posts while a receiver is deciding to block leave it blocked on a queue
   * that holds 128 messages, with nobody on the way to them.
   */
  lemma LostWakeup(length: nat, t: Task)
    requires length >= 128
    ensures var r := Run(NewQueue(length, true), [Lock(t, true), Decide, Place(0)] + (Posts(127) + [IsrSend(false), UnlockTx, UnlockRx]));
      r.stage == Free && r.receivers == [t] && r.messages == 128 && r.wokenR == {}
  {
    var s := NewQueue(length, true);
    var end := [IsrSend(false), UnlockTx, UnlockRx];
    var rest := Posts(127) + end;
    var s1, s2 := Apply(s, Lock(t, true)), Apply(Apply(s, Lock(t, true)), Decide);
    var s3 := Apply(s2, Place(0));
    assert [Lock(t, true), Decide, Place(0)] + rest == [Lock(t, true)] + ([Decide] + ([Place(0)] + rest));
    RunCons(s, Lock(t, true), [Decide] + ([Place(0)] + rest));
    RunCons(s1, Decide, [Place(0)] + rest);
    RunCons(s2, Place(0), rest);
    assert s3 == s.(txLock := 0, rxLock := 0, receivers := [t], stage := Leaving) by { assert With([], 0, t) == [t]; }
    PostsCount(s3, 127, end);
    Unseen(s3.(messages := 127, txLock := 127), t);
    hide Run, Apply, Posts;
  }

  lemma Unseen(s: Q, t: Task)
    requires s.messages == 127 && s.txLock == 127 && s.rxLock == 0 && s.receivers == [t] && s.wokenR == {} && s.copies
    requires s.length >= 128
    ensures var r := Run(s, [IsrSend(false), UnlockTx, UnlockRx]);
      r.stage == Free && r.receivers == [t] && r.messages == 128 && r.wokenR == {}
  {
    var u := s.IsrSend(false);
    assert u == s.(messages := 128, txLock := -128);
    assert u.UnlockTx() == u.(txLock := -1, stage := TxDone);
    RunCons(s, IsrSend(false), [UnlockTx, UnlockRx]);
    RunCons(u, UnlockTx, [UnlockRx]);
    RunCons(u.UnlockTx(), UnlockRx, []);
    assert [IsrSend(false)] + [UnlockTx, UnlockRx] == [IsrSend(false), UnlockTx, UnlockRx];
    assert [UnlockTx] + [UnlockRx] == [UnlockTx, UnlockRx];
  }

  // ----- the same in place -----

  /** The counts and event lists of a queue; `wokenR`, `wokenS` and `stage` say where its tasks are. */
  class LockedQueue {
    const uxLength: nat
    const copies: bool
    var uxMessagesWaiting: nat
    var xTasksWaitingToReceive: seq<Task>
    var xTasksWaitingToSend: seq<Task>
    var cTxLock: int
    var cRxLock: int
    ghost var wokenR: set<Task>
    ghost var wokenS: set<Task>
    ghost var stage: Stage

    ghost function State(): Q
      reads this
    {
      Q(uxLength, copies, uxMessagesWaiting, xTasksWaitingToReceive, xTasksWaitingToSend, cTxLock, cRxLock,
        wokenR, wokenS, stage)
    }

    constructor (length: nat, copies: bool)
      ensures State() == NewQueue(length, copies) && Valid() && AccountR(State()) && AccountS(State())
    {
      uxLength, this.copies, uxMessagesWaiting := length, copies, 0;
      xTasksWaitingToReceive, xTasksWaitingToSend, cTxLock, cRxLock := [], [], -1, -1;
      wokenR, wokenS, stage := {}, {}, Free;
    }

    /** What keeps the lists apart and the counts in range, whatever interrupts do. */
    ghost predicate Valid()
      reads this
    {
      StructR(State()) && StructS(State())
    }

    /** A step from `s` to here loses no wakeup, unless it is one of those that do. */
    ghost predicate Kept(s: Q, step: Step)
      reads this
    {
      && (AccountR(s) ==> (AccountR(State()) <==> !LosesPost(s, step)))
      && (AccountS(s) ==> (AccountS(State()) <==> !Strands(s, step)))
    }

    /** `xTaskRemoveFromEventList` on the receivers' list. */
    method WakeReceiver()
      requires xTasksWaitingToReceive != []
      modifies this`xTasksWaitingToReceive, this`wokenR
      ensures State() == old(State()).WakeReceiver()
    {
      wokenR := wokenR + {xTasksWaitingToReceive[0]};
      xTasksWaitingToReceive := xTasksWaitingToReceive[1..];
    }

    method WakeSender()
      requires xTasksWaitingToSend != []
      modifies this`xTasksWaitingToSend, this`wokenS
      ensures State() == old(State()).WakeSender()
    {
      wokenS := wokenS + {xTasksWaitingToSend[0]};
      xTasksWaitingToSend := xTasksWaitingToSend[1..];
    }

    /** `prvLockQueue`. */
    method LockQueue(t: Task, receiving: bool)
      requires Valid() && Enabled(State(), Lock(t, receiving))
      modifies this`cTxLock, this`cRxLock, this`stage
      ensures State() == old(State()).Lock(t, receiving)
      ensures Valid() && Kept(old(State()), Lock(t, receiving)) && cTxLock == 0 && cRxLock == 0
    {
      StepIs(State(), Lock(t, receiving));
      if cRxLock == -1 { cRxLock := 0; }
      if cTxLock == -1 { cTxLock := 0; }
      stage := Locked(t, receiving);
    }

    /** The first critical section of `prvUnlockQueue`. */
    method UnlockTx()
      requires Valid() && Enabled(State(), Step.UnlockTx)
      modifies this`xTasksWaitingToReceive, this`wokenR, this`cTxLock, this`stage
      ensures State() == old(State()).UnlockTx()
      ensures Valid() && Kept(old(State()), Step.UnlockTx) && cTxLock == -1
      ensures var k, list := Reached(old(cTxLock), old(xTasksWaitingToReceive)), old(xTasksWaitingToReceive);
        xTasksWaitingToReceive == list[k..] && wokenR == old(wokenR) + Members(list[..k])
    {
      hide Members, Reached, Q.WakeReceiver;
      DrainTxIs(State(), cTxLock);
      ghost var s := State();
      StepIs(s, Step.UnlockTx);
      ghost var paid := DrainTxWakes(s, s.txLock);
      hide StructR, StructS, AccountR, AccountS, LosesPost, Strands, Q.DrainTx;
      var txLock := cTxLock;
      while txLock > 0
        invariant s.DrainTx(s.txLock) == State().DrainTx(txLock) && cTxLock == s.txLock
        invariant txLock >= 0 || State() == s
      {
        if xTasksWaitingToReceive == [] { break; }
        WakeReceiver();
        txLock := txLock - 1;
      }
      cTxLock, stage := -1, TxDone;
    }

    /** Its second one. */
    method UnlockRx()
      requires Valid() && Enabled(State(), Step.UnlockRx)
      modifies this`xTasksWaitingToSend, this`wokenS, this`cRxLock, this`stage
      ensures State() == old(State()).UnlockRx()
      ensures Valid() && Kept(old(State()), Step.UnlockRx) && cRxLock == -1
      ensures var k, list := Reached(old(cRxLock), old(xTasksWaitingToSend)), old(xTasksWaitingToSend);
        xTasksWaitingToSend == list[k..] && wokenS == old(wokenS) + Members(list[..k])
    {
      hide Members, Reached, Q.WakeSender;
      DrainRxIs(State(), cRxLock);
      ghost var s := State();
      StepIs(s, Step.UnlockRx);
      ghost var paid := DrainRxWakes(s, s.rxLock);
      hide StructR, StructS, AccountR, AccountS, LosesPost, Strands;
      var rxLock := cRxLock;
      while rxLock > 0
        invariant s.DrainRx(s.rxLock) == State().DrainRx(rxLock) && cRxLock == s.rxLock
        invariant rxLock >= 0 || State() == s
      {
        if xTasksWaitingToSend == [] { break; }
        WakeSender();
        rxLock := rxLock - 1;
      }
      cRxLock, stage := -1, Free;
    }

    method Post(overwrite: bool)
      modifies this`uxMessagesWaiting
      ensures State() == old(State()).Post(overwrite)
    {
      if !(overwrite && copies && uxMessagesWaiting > 0) {
        uxMessagesWaiting := uxMessagesWaiting + 1;
      }
    }

    /** The critical section of `xQueueGenericSend`, run by task `t`. */
    method Send(t: Task, overwrite: bool) returns (sent: bool)
      requires Valid() && Enabled(State(), TaskSend(t, overwrite))
      modifies this`uxMessagesWaiting, this`xTasksWaitingToReceive, this`wokenR, this`wokenS
      ensures State() == old(State()).TaskSend(t, overwrite)
      ensures Valid() && Kept(old(State()), TaskSend(t, overwrite))
      ensures sent <==> old(uxMessagesWaiting) < uxLength || overwrite
      ensures uxMessagesWaiting == old(uxMessagesWaiting) + Gained(sent, overwrite, copies, old(uxMessagesWaiting))
      ensures if sent then FirstWoken(old(xTasksWaitingToReceive), xTasksWaitingToReceive, old(wokenR), wokenR)
              else xTasksWaitingToReceive == old(xTasksWaitingToReceive) && wokenR == old(wokenR)
    {
      StepIs(State(), TaskSend(t, overwrite));
      hide StructR, StructS, AccountR, AccountS, LosesPost, Strands;
      wokenS := wokenS - {t};
      sent := uxMessagesWaiting < uxLength || overwrite;
      if sent {
        Post(overwrite);
        if xTasksWaitingToReceive != [] { WakeReceiver(); }
      }
    }

    /** The critical section of `xQueueGenericReceive`, run by task `t`. */
    method Receive(t: Task, justPeeking: bool) returns (received: bool)
      requires Valid() && Enabled(State(), Receiving(t, justPeeking))
      modifies this`uxMessagesWaiting, this`xTasksWaitingToReceive, this`xTasksWaitingToSend, this`wokenR, this`wokenS
      ensures State() == if justPeeking then old(State()).TaskPeek(t) else old(State()).TaskReceive(t)
      ensures Valid() && Kept(old(State()), Receiving(t, justPeeking))
      ensures received <==> old(uxMessagesWaiting) > 0
      ensures uxMessagesWaiting == old(uxMessagesWaiting) - if received && !justPeeking then 1 else 0
      ensures if received && justPeeking then FirstWoken(old(xTasksWaitingToReceive), xTasksWaitingToReceive, old(wokenR) - {t}, wokenR)
              else xTasksWaitingToReceive == old(xTasksWaitingToReceive) && wokenR == old(wokenR) - {t}
      ensures if received && !justPeeking then FirstWoken(old(xTasksWaitingToSend), xTasksWaitingToSend, old(wokenS), wokenS)
              else xTasksWaitingToSend == old(xTasksWaitingToSend) && wokenS == old(wokenS)
    {
      StepIs(State(), Receiving(t, justPeeking));
      hide StructR, StructS, AccountR, AccountS, LosesPost, Strands;
      wokenR := wokenR - {t};
      received := uxMessagesWaiting > 0;
      if received {
        if !justPeeking {
          uxMessagesWaiting := uxMessagesWaiting - 1;
          if xTasksWaitingToSend != [] { WakeSender(); }
        } else {
          if xTasksWaitingToReceive != [] { WakeReceiver(); }
        }
      }
    }

    /** `xQueueGenericSendFromISR`; an int8_t count wraps. */
    method SendFromISR(overwrite: bool) returns (sent: bool)
      requires Valid() && Enabled(State(), IsrSend(overwrite))
      modifies this`uxMessagesWaiting, this`xTasksWaitingToReceive, this`wokenR, this`cTxLock
      ensures State() == old(State()).IsrSend(overwrite)
      ensures Valid() && Kept(old(State()), IsrSend(overwrite))
      ensures sent <==> old(uxMessagesWaiting) < uxLength || overwrite
      ensures uxMessagesWaiting == old(uxMessagesWaiting) + Gained(sent, overwrite, copies, old(uxMessagesWaiting))
      ensures if sent && old(cTxLock) == -1
              then FirstWoken(old(xTasksWaitingToReceive), xTasksWaitingToReceive, old(wokenR), wokenR)
              else xTasksWaitingToReceive == old(xTasksWaitingToReceive) && wokenR == old(wokenR)
      ensures cTxLock == if !sent || old(cTxLock) == -1 then old(cTxLock) else if old(cTxLock) == 127 then -128 else old(cTxLock) + 1
    {
      StepIs(State(), IsrSend(overwrite));
      hide StructR, StructS, AccountR, AccountS, LosesPost, Strands;
      sent := uxMessagesWaiting < uxLength || overwrite;
      if sent {
        var txLock := cTxLock;
        Post(overwrite);
        if txLock == -1 {
          if xTasksWaitingToReceive != [] { WakeReceiver(); }
        } else {
          cTxLock := Inc(txLock);
        }
      }
    }

    /** `xQueueReceiveFromISR`. */
    method ReceiveFromISR() returns (received: bool)
      requires Valid() && Enabled(State(), IsrReceive)
      modifies this`uxMessagesWaiting, this`xTasksWaitingToSend, this`wokenS, this`cRxLock
      ensures State() == old(State()).IsrReceive()
      ensures Valid() && Kept(old(State()), IsrReceive)
      ensures received <==> old(uxMessagesWaiting) > 0
      ensures uxMessagesWaiting == old(uxMessagesWaiting) - if received then 1 else 0
      ensures if received && old(cRxLock) == -1
              then FirstWoken(old(xTasksWaitingToSend), xTasksWaitingToSend, old(wokenS), wokenS)
              else xTasksWaitingToSend == old(xTasksWaitingToSend) && wokenS == old(wokenS)
      ensures cRxLock == if !received || old(cRxLock) == -1 then old(cRxLock) else if old(cRxLock) == 127 then -128 else old(cRxLock) + 1
    {
      StepIs(State(), IsrReceive);
      hide StructR, StructS, AccountR, AccountS, LosesPost, Strands;
      received := uxMessagesWaiting > 0;
      if received {
        var rxLock := cRxLock;
        uxMessagesWaiting := uxMessagesWaiting - 1;
        if rxLock == -1 {
          if xTasksWaitingToSend != [] { WakeSender(); }
        } else {
          cRxLock := Inc(rxLock);
        }
      }
    }

    /** `xQueueGenericReset` of a queue in use. */
    method Reset()
      requires Valid() && Enabled(State(), Step.Reset)
      modifies this`uxMessagesWaiting, this`cTxLock, this`cRxLock, this`xTasksWaitingToSend, this`wokenS
      ensures State() == old(State()).Reset()
      ensures Valid() && Kept(old(State()), Step.Reset)
      ensures uxMessagesWaiting == 0 && cTxLock == -1 && cRxLock == -1
      ensures FirstWoken(old(xTasksWaitingToSend), xTasksWaitingToSend, old(wokenS), wokenS)
    {
      StepIs(State(), Step.Reset);
      ResetApplies(State());
      hide StructR, StructS, AccountR, AccountS, LosesPost, Strands, Enabled, Apply, Q.WakeSender, Q.Reset;
      Clear();
      WakeFirstSender();
    }

    method WakeFirstSender()
      modifies this`xTasksWaitingToSend, this`wokenS
      ensures State() == old(State()).WakeSender()
      ensures FirstWoken(old(xTasksWaitingToSend), xTasksWaitingToSend, old(wokenS), wokenS)
    {
      if xTasksWaitingToSend != [] { WakeSender(); }
    }

    method Clear()
      modifies this`uxMessagesWaiting, this`cTxLock, this`cRxLock
      ensures State() == old(State()).(messages := 0, txLock := -1, rxLock := -1)
    {
      uxMessagesWaiting, cRxLock, cTxLock := 0, -1, -1;
    }
  }

  lemma ResetApplies(s: Q)
    ensures Apply(s, Step.Reset) == s.Reset() == s.(messages := 0, txLock := -1, rxLock := -1).WakeSender()
  {
    hide Q.WakeSender;
  }

  /** An accepted item raises the count, unless it takes the place of one in a queue of items that have a size. */
  function Gained(sent: bool, overwrite: bool, copies: bool, messages: nat): nat {
    if sent && !(overwrite && copies && messages > 0) then 1 else 0
  }

  function Receiving(t: Task, justPeeking: bool): Step { if justPeeking then TaskPeek(t) else TaskReceive(t) }

  lemma StepIs(s: Q, step: Step)
    requires StructR(s) && StructS(s) && Enabled(s, step)
    ensures StructR(Apply(s, step)) && (AccountR(s) ==> (AccountR(Apply(s, step)) <==> !LosesPost(s, step)))
    ensures StructS(Apply(s, step)) && (AccountS(s) ==> (AccountS(Apply(s, step)) <==> !Strands(s, step)))
  {
    StepR(s, step);
    StepS(s, step);
    hide StructR, StructS, AccountR, AccountS, LosesPost, Strands, Enabled, Apply;
  }
}
