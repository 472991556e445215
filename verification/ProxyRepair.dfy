/**
 The proxy actuator of ia-bridge/local-ai-proxy-repair.js: one durable receipt per
 operation id, one lock file, and calls that are suspended while a remote command
 or a probe is pending.  A crash forgets the suspended calls and nothing else; it does not stop
 the remote command, and neither does a time-out.
 */
module ProxyRepair {
  import opened Common

  datatype RemoteReason =
    | RemoteReady | PublishedEndpointUnreachable | AddressNotReady | ProxyBaselineMismatch | BackendNotReady
    | DeleteFailed | RestoreFailed | ConfigurationChanged | SharedServiceChanged | RemoteFailure

  /** The remote command's report; Unusable covers timeouts, bad JSON and unlisted reasons. */
  datatype Remote = Unusable | Report(reason: RemoteReason, effectAttempted: bool)

  datatype Outcome = Ready | Failed | Unknown

  datatype Reason =
    | OperationStarted | ExecutionResultUnknown | EndpointVerified | BridgePathUnreachable
    | FromRemote(remote: RemoteReason)

  datatype Receipt = Receipt(outcome: Outcome, reason: Reason)

  datatype Reply = Rejected | Busy | Stored(receipt: Receipt)

  /** Where a suspended call waits. */
  datatype Phase = AwaitRemote | AwaitProbe

  /**
   `running` are the suspended calls of the bridge, `started` lists the operation ids whose remote
   command was started, in order, and `live` are those whose remote command may still be at work.
   */
  datatype World = World(
    receipts: map<string, Receipt>,
    lock: bool,
    running: map<string, Phase>,
    started: seq<string>,
    live: set<string>)

  const INITIAL: World := World(map[], false, map[], [], {})

  predicate IdChar(c: char) {
    'A' <= c <= 'Z' || 'a' <= c <= 'z' || '0' <= c <= '9' || c == '_' || c == '-'
  }

  predicate ValidId(id: string) { 8 <= |id| <= 80 && forall i :: 0 <= i < |id| ==> IdChar(id[i]) }

  /** Reports that leave the remote side in a state nobody can vouch for. */
  predicate Unsafe(reason: RemoteReason) {
    reason in {RestoreFailed, ConfigurationChanged, SharedServiceChanged, RemoteFailure}
  }

  const STARTED: Receipt := Receipt(Unknown, OperationStarted)
  const ABANDONED: Receipt := Receipt(Unknown, ExecutionResultUnknown)

  /** The final receipt of a call; `reachable` is the bridge's own probe. */
  function Classify(reason: RemoteReason, reachable: bool): Receipt {
    Receipt(
      if Unsafe(reason) then Unknown else if reachable then Ready else Failed,
      if reachable then EndpointVerified
      else if reason == RemoteReady then BridgePathUnreachable
      else FromRemote(reason))
  }

  // ---------------------------------------------------------------- steps

  /** The points of the synchronous span at which the process can die. */
  datatype CrashPoint = AfterLock | AfterReceipt | AfterStart

  datatype Event =
    | Call(id: string, configured: bool)
    | CallCrashes(id: string, configured: bool, at: CrashPoint)
    | RemoteDone(id: string, remote: Remote)
    | ProbeDone(id: string, reachable: bool)
    | ConcludeCrashes(id: string, remote: Remote, reachable: bool)
    | Crash
    | RemoteEnds(id: string)
    | Reconcile

  /** Does a call get past the receipt and the lock? */
  predicate Admitted(w: World, id: string) { ValidId(id) && id !in w.receipts && !w.lock }

  function Save(w: World, id: string, r: Receipt): World { w.(receipts := w.receipts[id := r]) }

  /** A finished call: its receipt is final, and only a known outcome releases the lock. */
  function Finish(w: World, id: string, r: Receipt): World {
    Save(w, id, r).(lock := w.lock && r.outcome == Unknown, running := w.running - {id})
  }

  function Start(w: World, id: string): World {
    Save(w, id, STARTED).(
      lock := true, running := w.running[id := AwaitRemote], started := w.started + [id], live := w.live + {id})
  }

  /** The span of `repairProxy` up to its first `await`, one step of the event loop. */
  function CallStep(w: World, id: string, configured: bool): World {
    if !Admitted(w, id) then w
    else if !configured then Finish(w.(lock := true), id, ABANDONED)
    else Start(w, id)
  }

  function CrashStep(w: World): World { w.(running := map[]) }

  function EndRemote(w: World, id: string): World { w.(live := w.live - {id}) }

  function CallCrashStep(w: World, id: string, configured: bool, at: CrashPoint): World {
    CrashStep(
      if !Admitted(w, id) then w
      else if at == AfterLock then w.(lock := true)
      else if at == AfterReceipt && configured then Save(w, id, STARTED).(lock := true)
      else CallStep(w, id, configured))
  }

  /** A usable report is the end of the remote command; a time-out says nothing about it. */
  function RemoteStep(w: World, id: string, remote: Remote): World {
    if id !in w.running || w.running[id] != AwaitRemote then w
    else
      match remote
      case Unusable => Finish(w, id, ABANDONED)
      case Report(reason, _) =>
        if reason == RemoteReady then EndRemote(w, id).(running := w.running[id := AwaitProbe])
        else Finish(EndRemote(w, id), id, Classify(reason, false))
  }

  function ProbeStep(w: World, id: string, reachable: bool): World {
    if id !in w.running || w.running[id] != AwaitProbe then w
    else Finish(w, id, Classify(RemoteReady, reachable))
  }

  /** The final receipt of a suspended call, unless it goes on to the probe. */
  function FinalReceipt(phase: Phase, remote: Remote, reachable: bool): Option<Receipt> {
    if phase == AwaitProbe then Some(Classify(RemoteReady, reachable))
    else if remote.Unusable? then Some(ABANDONED)
    else if remote.reason == RemoteReady then None
    else Some(Classify(remote.reason, false))
  }

  /** The process dies after writing a final receipt and before removing the lock. */
  function ConcludeCrashStep(w: World, id: string, remote: Remote, reachable: bool): World {
    if id !in w.running then w
    else
      match FinalReceipt(w.running[id], remote, reachable)
      case None => w
      case Some(r) => CrashStep(Save(if remote.Report? then EndRemote(w, id) else w, id, r))
  }

  function Step(w: World, e: Event): World {
    match e
    case Call(id, configured) => CallStep(w, id, configured)
    case CallCrashes(id, configured, at) => CallCrashStep(w, id, configured, at)
    case RemoteDone(id, remote) => RemoteStep(w, id, remote)
    case ProbeDone(id, reachable) => ProbeStep(w, id, reachable)
    case ConcludeCrashes(id, remote, reachable) => ConcludeCrashStep(w, id, remote, reachable)
    case Crash => CrashStep(w)
    case RemoteEnds(id) => EndRemote(w, id)
    case Reconcile => w.(lock := false)
  }

  function Run(w: World, events: seq<Event>): World {
    if events == [] then w else Step(Run(w, events[..|events| - 1]), events[|events| - 1])
  }

  // ---------------------------------------------------------------- the actuator

  class Actuator {
    var receipts: map<string, Receipt>
    var lockFile: bool
    var running: map<string, Phase>
    ghost var started: seq<string>
    ghost var live: set<string>

    ghost function View(): World
      reads this
    {
      World(receipts, lockFile, running, started, live)
    }

    constructor ()
      ensures View() == INITIAL
    {
      receipts, lockFile, running, started, live := map[], false, map[], [], {};
    }

    /** `repairProxy` up to its first suspension; a reply means that it did not suspend. */
    method Begin(id: string, configured: bool) returns (reply: Option<Reply>)
      modifies this
      ensures View() == Step(old(View()), Call(id, configured))
      ensures reply == if !ValidId(id) then Some(Rejected)
                       else if id in old(receipts) then Some(Stored(old(receipts)[id]))
                       else if old(lockFile) then Some(Busy)
                       else if configured then None
                       else Some(Stored(ABANDONED))
    {
      if !ValidId(id) { return Some(Rejected); }
      if id in receipts { return Some(Stored(receipts[id])); }
      if lockFile { return Some(Busy); }
      lockFile := true;
      if !configured {
        var r := Conclude(id, ABANDONED);
        return Some(Stored(r));
      }
      receipts := receipts[id := STARTED];
      running := running[id := AwaitRemote];
      started, live := started + [id], live + {id};
      return None;
    }

    /** The `catch`/`finally` end of a call. */
    method Conclude(id: string, receipt: Receipt) returns (r: Receipt)
      modifies this
      ensures View() == Finish(old(View()), id, receipt) && r == receipt
    {
      receipts := receipts[id := receipt];
      running := running - {id};
      if receipt.outcome != Unknown { lockFile := false; }
      return receipt;
    }

    /** The call resumes with what the remote command reported. */
    method Resume(id: string, remote: Remote) returns (reply: Option<Reply>)
      requires id in running && running[id] == AwaitRemote
      modifies this
      ensures View() == Step(old(View()), RemoteDone(id, remote))
      ensures reply.Some? ==> id in receipts && reply == Some(Stored(receipts[id])) && id !in running
      ensures match remote
        case Unusable => reply == Some(Stored(Receipt(Unknown, ExecutionResultUnknown)))
        case Report(RemoteReady, _) => reply == None && running == old(running)[id := AwaitProbe]
        case Report(reason, _) => reply == Some(Stored(Receipt(ReportOutcome(reason), FromRemote(reason))))
    {
      if remote.Unusable? {
        var r := Conclude(id, ABANDONED);
        return Some(Stored(r));
      }
      live := live - {id};
      if remote.reason == RemoteReady {
        running := running[id := AwaitProbe];
        return None;
      }
      var r := Conclude(id, Classify(remote.reason, false));
      return Some(Stored(r));
    }

    /** The call resumes with the result of the bridge's own probe. */
    method ResumeProbe(id: string, reachable: bool) returns (reply: Reply)
      requires id in running && running[id] == AwaitProbe
      modifies this
      ensures View() == Step(old(View()), ProbeDone(id, reachable))
      ensures id in receipts && reply == Stored(receipts[id]) && id !in running
      ensures reply == Stored(
        if reachable then Receipt(Ready, EndpointVerified) else Receipt(Failed, BridgePathUnreachable))
    {
      var r := Conclude(id, Classify(RemoteReady, reachable));
      return Stored(r);
    }
  }

  // ---------------------------------------------------------------- what a call ends with

  /** Four reports are failures after which nobody knows the remote state; the others left it as it was. */
  function ReportOutcome(reason: RemoteReason): Outcome {
    match reason
    case RestoreFailed => Unknown
    case ConfigurationChanged => Unknown
    case SharedServiceChanged => Unknown
    case RemoteFailure => Unknown
    case _ => Failed
  }

  /** A call that ends: its receipt is written, no other one changes, and a known outcome frees the lock. */
  ghost predicate Ends(w: World, id: string, outcome: Outcome, reason: Reason, after: World) {
    && after.receipts == w.receipts[id := Receipt(outcome, reason)]
    && after.running == w.running - {id}
    && after.lock == (w.lock && outcome == Unknown)
    && after.started == w.started
  }

  /** The probe decides: reachable means ready, and nothing else is. */
  lemma ProbeDecides(w: World, id: string, reachable: bool)
    requires id in w.running && w.running[id] == AwaitProbe
    ensures var after := Step(w, ProbeDone(id, reachable));
      if reachable then Ends(w, id, Ready, EndpointVerified, after)
      else Ends(w, id, Failed, BridgePathUnreachable, after)
  {}

  /** A report other than ready ends the call with its own reason; no report leaves the outcome open. */
  lemma ReportDecides(w: World, id: string, remote: Remote)
    requires id in w.running && w.running[id] == AwaitRemote
    ensures var after := Step(w, RemoteDone(id, remote));
      match remote
      case Unusable => Ends(w, id, Unknown, ExecutionResultUnknown, after)
      case Report(reason, _) =>
        if reason == RemoteReady then after == w.(running := w.running[id := AwaitProbe], live := w.live - {id})
        else Ends(w, id, ReportOutcome(reason), FromRemote(reason), after)
  {}

  /** The end of a call by a probe that reached the endpoint, also if the process dies right after. */
  ghost predicate ReachedBy(w: World, e: Event, id: string) {
    && id in w.running && w.running[id] == AwaitProbe
    && (e == ProbeDone(id, true) || (e.ConcludeCrashes? && e.id == id && e.reachable))
  }

  lemma StepReady(w: World, e: Event, id: string)
    ensures var after := Step(w, e);
      && (id in after.receipts && after.receipts[id].outcome == Ready ==>
           ReachedBy(w, e, id) || (id in w.receipts && after.receipts[id] == w.receipts[id]))
      && (ReachedBy(w, e, id) ==> id in after.receipts && after.receipts[id] == Receipt(Ready, EndpointVerified))
  {}

  predicate IsReady(w: World, id: string) { id in w.receipts && w.receipts[id].outcome == Ready }

  /** Some event of a run ended the call by a probe that reached the endpoint. */
  ghost predicate Reached(events: seq<Event>, id: string) { exists i :: ReachedAt(events, id, i) }

  ghost predicate ReachedAt(events: seq<Event>, id: string, i: int) {
    0 <= i < |events| && ReachedBy(Run(INITIAL, events[..i]), events[i], id)
  }

  lemma ReachedSnoc(front: seq<Event>, last: Event, events: seq<Event>, id: string)
    requires events == front + [last]
    ensures Reached(events, id) <==> Reached(front, id) || ReachedBy(Run(INITIAL, front), last, id)
  {
    forall i | 0 <= i < |front| ensures ReachedAt(front, id, i) <==> ReachedAt(events, id, i) {
      assert front[..i] == events[..i];
    }
    assert events[..|front|] == front;
    assert ReachedBy(Run(INITIAL, front), last, id) <==> ReachedAt(events, id, |front|);
  }

  lemma ReadyNext(w: World, e: Event, id: string)
    requires Recorded(w)
    ensures IsReady(Step(w, e), id) <==> IsReady(w, id) || ReachedBy(w, e, id)
  {
    StepReady(w, e, id);
  }

  /** In every run a receipt says ready exactly if a probe that reached the endpoint ended that call. */
  lemma {:induction false} ReadyExactlyWhenReached(events: seq<Event>, id: string)
    ensures IsReady(Run(INITIAL, events), id) <==> Reached(events, id)
  {
    if events != [] {
      var front, last := events[..|events| - 1], events[|events| - 1];
      FrontLast(events);
      ReadyExactlyWhenReached(front, id);
      AtMostOnce(front);
      ReachedSnoc(front, last, events, id);
      ReadyNext(Run(INITIAL, front), last, id);
    }
  }

  /** `/^[A-Za-z0-9_-]{8,80}$/` */
  lemma IdText(id: string)
    ensures ValidId(id) <==> 8 <= |id| <= 80 && forall i :: 0 <= i < |id| ==> WordCode(id[i] as int)
  {}

  /** At first there is nothing: no receipt, no lock, no call and no command. */
  lemma Initially()
    ensures INITIAL == World(map[], false, map[], [], {})
  {}

  /** A crash keeps receipts and lock: it forgets the suspended calls and nothing else. */
  lemma CrashForgetsCalls(w: World)
    ensures Step(w, Crash) == World(w.receipts, w.lock, map[], w.started, w.live)
  {}

  /** A crash on the way in leaves the lock, and behind it the started receipt, and then the command. */
  lemma CrashOnTheWayIn(w: World, id: string)
    requires ValidId(id) && id !in w.receipts && !w.lock
    ensures var after := Step(w, CallCrashes(id, true, AfterLock));
      after == w.(lock := true, running := map[])
    ensures var after := Step(w, CallCrashes(id, true, AfterReceipt));
      after == w.(lock := true, running := map[], receipts := w.receipts[id := Receipt(Unknown, OperationStarted)])
    ensures var after := Step(w, CallCrashes(id, true, AfterStart));
      && after == w.(
           lock := true, running := map[], receipts := w.receipts[id := Receipt(Unknown, OperationStarted)],
           started := w.started + [id], live := w.live + {id})
  {}

  /** A crash on the way out leaves the receipt that the call would have had, and the lock. */
  lemma CrashOnTheWayOut(w: World, id: string, remote: Remote, reachable: bool)
    requires id in w.running
    ensures var after := Step(w, ConcludeCrashes(id, remote, reachable));
      var whole := if w.running[id] == AwaitProbe then Step(w, ProbeDone(id, reachable))
                   else Step(w, RemoteDone(id, remote));
      if w.running[id] == AwaitRemote && remote.Report? && remote.reason == RemoteReady then after == w
      else
        && after.receipts == whole.receipts && after.lock == w.lock && after.running == map[]
        && after.started == w.started && (w.running[id] == AwaitRemote ==> after.live == whole.live)
  {}

  /** A call that is not admitted changes nothing; one without configuration ends unknown and keeps the lock. */
  lemma CallsRefused(w: World, id: string, configured: bool)
    ensures !ValidId(id) || id in w.receipts || w.lock ==> Step(w, Call(id, configured)) == w
    ensures ValidId(id) && id !in w.receipts && !w.lock ==>
      Step(w, Call(id, false))
        == w.(receipts := w.receipts[id := Receipt(Unknown, ExecutionResultUnknown)], lock := true,
              running := w.running - {id})
  {}

  // ---------------------------------------------------------------- at most once per id, in every run

  ghost predicate NoDuplicates(ids: seq<string>) { forall i, j :: 0 <= i < j < |ids| ==> ids[i] != ids[j] }

  /** What holds in every run, however operators behave. */
  ghost predicate Recorded(w: World) {
    && NoDuplicates(w.started)
    && (forall id :: id in w.started ==> id in w.receipts)
    && (forall id :: id in w.running ==> id in w.receipts && w.receipts[id] == STARTED)
    && (forall id :: id in w.live ==> id in w.receipts)
  }

  lemma StepKeepsRecorded(w: World, e: Event)
    requires Recorded(w)
    ensures Recorded(Step(w, e))
  {}

  /**
   In every run, with any callers, crash points and operator actions, the remote
   command of an operation id is started at most once.
   */
  lemma {:induction false} AtMostOnce(events: seq<Event>)
    ensures Recorded(Run(INITIAL, events))
  {
    if events != [] {
      AtMostOnce(events[..|events| - 1]);
      StepKeepsRecorded(Run(INITIAL, events[..|events| - 1]), events[|events| - 1]);
    }
  }

  /** A receipt with a known outcome never changes again. */
  lemma {:induction false} KnownReceiptsFinal(w: World, events: seq<Event>, id: string)
    requires Recorded(w)
    requires id in w.receipts && w.receipts[id].outcome != Unknown
    ensures Recorded(Run(w, events))
    ensures id in Run(w, events).receipts && Run(w, events).receipts[id] == w.receipts[id]
  {
    if events != [] {
      var before := events[..|events| - 1];
      KnownReceiptsFinal(w, before, id);
      StepKeepsRecorded(Run(w, before), events[|events| - 1]);
    }
  }

  // ---------------------------------------------------------------- single flight

  /** No call is suspended and no remote command is at work. */
  predicate Idle(w: World) { w.running == map[] && w.live == {} }

  /** The operator removes the lock only while nothing is under way, here or on the remote side. */
  ghost predicate Disciplined(w: World, events: seq<Event>) {
    forall i :: 0 <= i < |events| && events[i] == Reconcile ==> Idle(Run(w, events[..i]))
  }

  ghost predicate AtMostOneLive(w: World) { forall a, b :: a in w.live && b in w.live ==> a == b }

  /** All that is under way belongs to one operation, which holds the lock; a probe follows the remote's end. */
  ghost predicate SingleFlight(w: World) {
    && (!Idle(w) ==> w.lock)
    && (forall a, b :: (a in w.running || a in w.live) && (b in w.running || b in w.live) ==> a == b)
    && (forall id :: id in w.running && w.running[id] == AwaitProbe ==> id !in w.live)
  }

  lemma FinishKeepsSingleFlight(w: World, id: string, r: Receipt)
    requires SingleFlight(w) && id in w.running && (id in w.live ==> r.outcome == Unknown)
    ensures SingleFlight(Finish(w, id, r))
  {
    if id !in w.live {
      assert Idle(Finish(w, id, r)) by {
        assert w.live == {};
        FlightEnds(w, id);
      }
    }
  }

  lemma StepKeepsSingleFlight(w: World, e: Event)
    requires SingleFlight(w)
    requires e == Reconcile ==> Idle(w)
    ensures SingleFlight(Step(w, e))
  {
    match e
    case RemoteDone(id, remote) =>
      if id in w.running && w.running[id] == AwaitRemote {
        if remote.Unusable? {
          FinishKeepsSingleFlight(w, id, ABANDONED);
        } else if remote.reason != RemoteReady {
          FinishKeepsSingleFlight(EndRemote(w, id), id, Classify(remote.reason, false));
        }
      }
    case ProbeDone(id, reachable) =>
      if id in w.running && w.running[id] == AwaitProbe {
        FinishKeepsSingleFlight(w, id, Classify(RemoteReady, reachable));
      }
    case _ =>
  }

  lemma FlightEnds(w: World, id: string)
    requires SingleFlight(w) && id in w.running
    ensures w.running - {id} == map[]
  {}

  lemma {:induction false} RunKeepsSingleFlight(w: World, events: seq<Event>)
    requires SingleFlight(w) && Disciplined(w, events)
    ensures SingleFlight(Run(w, events))
  {
    if events != [] {
      var before := events[..|events| - 1];
      assert forall i :: 0 <= i < |before| ==> before[..i] == events[..i];
      RunKeepsSingleFlight(w, before);
      StepKeepsSingleFlight(Run(w, before), events[|events| - 1]);
    }
  }

  /**
   Under that discipline at most one remote command is at work in any run, crashes and time-outs
   that leave it behind included, and it holds the lock.
   */
  lemma AtMostOneInFlight(events: seq<Event>)
    requires Disciplined(INITIAL, events)
    ensures AtMostOneLive(Run(INITIAL, events)) && (Run(INITIAL, events).live != {} ==> Run(INITIAL, events).lock)
  {
    RunKeepsSingleFlight(INITIAL, events);
  }

  lemma RunSnoc(w: World, events: seq<Event>, e: Event)
    ensures Run(w, events + [e]) == Step(Run(w, events), e)
  {
    Drop(events, [e]);
  }

  lemma RunTwo(w: World, e: Event, f: Event)
    ensures Run(w, [e, f]) == Step(Step(w, e), f)
  {
    RunSnoc(w, [], e);
    RunSnoc(w, [e], f);
    EmptyConcat([e]);
    assert [e] + [f] == [e, f];
  }

  lemma RunThree(w: World, e: Event, f: Event, g: Event)
    ensures Run(w, [e, f, g]) == Step(Step(Step(w, e), f), g)
  {
    RunTwo(w, e, f);
    RunSnoc(w, [e, f], g);
    assert [e, f] + [g] == [e, f, g];
  }

  /**
   Removing the lock lets the next operation start a second remote command beside another one
   exactly when one was still at work, whether or not its call is still suspended.
   */
  lemma EarlyReconcileBreaksSingleFlight(w: World, next: string)
    requires Recorded(w) && ValidId(next) && next !in w.receipts
    ensures var after := Run(w, [Reconcile, Call(next, true)]);
      && next in after.live && after.started == w.started + [next]
      && ((exists other :: other != next && other in after.live) <==> w.live != {})
  {
    RunTwo(w, Reconcile, Call(next, true));
    if w.live != {} {
      var other :| other in w.live;
      var after := Run(w, [Reconcile, Call(next, true)]);
      assert other in after.live && other in w.receipts && other != next;
    }
  }

  /** The step by which a suspended call ends with a known outcome. */
  function Settles(w: World, id: string): Event
    requires id in w.running
  {
    if w.running[id] == AwaitProbe then ProbeDone(id, true) else RemoteDone(id, Report(DeleteFailed, true))
  }

  /** A call that outlives the removal of its lock removes the next operation's lock when it ends. */
  lemma SuspendedCallFreesForeignLock(w: World, id: string, b: string, c: string)
    requires Recorded(w) && id in w.running && b != c && {b, c} !! w.receipts.Keys && ValidId(b) && ValidId(c)
    ensures var after := Run(w.(lock := false), [Call(b, true), Settles(w, id), Call(c, true)]);
      b in after.live && c in after.live
  {
    var open := w.(lock := false);
    RunThree(open, Call(b, true), Settles(w, id), Call(c, true));
    assert Step(open, Call(b, true)) == Start(open, b);
    var freed := Step(Start(open, b), Settles(w, id));
    assert b in freed.live && !freed.lock && c !in freed.receipts;
  }

  lemma NoReconcileDisciplined(w: World, events: seq<Event>)
    requires Reconcile !in events
    ensures Disciplined(w, events)
  {
    assert forall i :: 0 <= i < |events| ==> events[i] in events;
  }

  /** Every disciplined future keeps to one remote command at a time. */
  ghost predicate SafeFrom(w: World) { forall events :: Disciplined(w, events) ==> AtMostOneLive(Run(w, events)) }

  lemma IdleIsSafe(w: World)
    requires SingleFlight(w)
    ensures SafeFrom(w)
  {
    forall events | Disciplined(w, events) ensures AtMostOneLive(Run(w, events)) {
      RunKeepsSingleFlight(w, events);
    }
  }

  /** Whatever is under way when the lock goes, some future runs two remote commands at once. */
  lemma BusyReconcileUnsafe(w: World, b: string, c: string) returns (events: seq<Event>)
    requires Recorded(w) && !Idle(w)
    requires b != c && {b, c} !! w.receipts.Keys && ValidId(b) && ValidId(c)
    ensures Reconcile !in events && !AtMostOneLive(Run(w.(lock := false), events))
  {
    if w.live != {} {
      var other :| other in w.live;
      events := [Call(b, true)];
      RunSnoc(w.(lock := false), [], Call(b, true));
      EmptyConcat([Call(b, true)]);
      assert other in Run(w.(lock := false), events).live && b in Run(w.(lock := false), events).live;
    } else {
      var id :| id in w.running;
      events := [Call(b, true), Settles(w, id), Call(c, true)];
      SuspendedCallFreesForeignLock(w, id, b, c);
    }
  }

  /**
   Removing the lock is safe for every disciplined future exactly when nothing is under way: a
   remote command at work, or a suspended call, each leads to two remote commands at once.
   `b` and `c` are any two fresh ids.
   */
  lemma ReconcileSafeExactlyWhenIdle(w: World, b: string, c: string)
    requires Recorded(w) && SingleFlight(w)
    requires b != c && {b, c} !! w.receipts.Keys && ValidId(b) && ValidId(c)
    ensures SafeFrom(Step(w, Reconcile)) <==> Idle(w)
  {
    if Idle(w) {
      IdleIsSafe(Step(w, Reconcile));
    } else {
      var events := BusyReconcileUnsafe(w, b, c);
      NoReconcileDisciplined(Step(w, Reconcile), events);
    }
  }

  // ---------------------------------------------------------------- ambiguity blocks everything

  /** The lock is held and no suspended call can release it. */
  predicate Blocked(w: World) { w.lock && w.running == map[] }

  /** Until an operator acts, a blocked actuator starts nothing, for any id. */
  lemma {:induction false} BlockedUntilReconciled(w: World, events: seq<Event>)
    requires Blocked(w) && Reconcile !in events
    ensures Blocked(Run(w, events)) && Run(w, events).started == w.started
  {
    if events != [] {
      var before, last := events[..|events| - 1], events[|events| - 1];
      assert last in events;
      BlockedUntilReconciled(w, before);
    }
  }

  /** A step that starts nothing new and ends the flight without a known outcome. */
  ghost predicate Ambiguous(w: World, e: Event) {
    match e
    case Crash => w.running != map[]
    case ConcludeCrashes(id, remote, reachable) =>
      id in w.running && FinalReceipt(w.running[id], remote, reachable).Some?
    case CallCrashes(id, _, _) => w.running != map[] || Admitted(w, id)
    case Call(id, configured) => Admitted(w, id) && !configured
    case RemoteDone(id, remote) =>
      id in w.running && w.running[id] == AwaitRemote && (remote.Unusable? || Unsafe(remote.reason))
    case _ => false
  }

  /** Every crash in flight and every unknown outcome blocks the actuator; nothing else does. */
  lemma BlocksExactlyWhenAmbiguous(w: World, e: Event)
    requires SingleFlight(w) && !Blocked(w)
    requires e == Reconcile ==> Idle(w)
    ensures Blocked(Step(w, e)) <==> Ambiguous(w, e)
  {
    match e
    case RemoteDone(id, _) => if id in w.running { FlightEnds(w, id); }
    case ProbeDone(id, _) => if id in w.running { FlightEnds(w, id); }
    case Call(id, _) => assert w.running == map[] ==> w.running - {id} == map[];
    case CallCrashes(id, _, _) => assert w.running == map[] ==> w.running - {id} == map[];
    case _ =>
  }
}
