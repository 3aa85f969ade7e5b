/**
 * A scan row and its obligations as its history explains them: which callbacks, cancellations and
 * reconciliations took effect, read off the whole run rather than off one step.
 */
module ScanHistory {
  import opened ScanSlots

  datatype Event =
    | Accepted        // the broker took the message
    | Rejected        // the broker refused it
    | Recorded        // the task id was written back
    | Reconciled      // a refused publish was written back
    | Delivered       // a worker took the message
    | Dropped         // a cancel revoked the task before its message was taken
    | Started         // the worker found the row and it was not cancelled
    | Succeeded       // the success callback found the row not cancelled
    | Broke           // the error callback found the row not cancelled
    | CallbackRan     // either callback, whatever it found
    | WasCancelled
    | Deleted

  predicate Live(s: State, id: ScanId) {
    id in s.scans && !s.scans[id].status.Cancelled?
  }

  /** The step takes effect on the scan in the given way. */
  predicate Occurs(s: State, a: Action, id: ScanId, e: Event) {
    match e
    case Accepted => a == PublishOk(id) && id in s.unpublished
    case Rejected => a == PublishFail(id) && id in s.unpublished
    case Recorded => a == RecordTask(id) && id in s.unrecorded
    case Reconciled => a == RecordFailure(id) && id in s.failing
    case Delivered => a == Deliver(id) && id in s.messages
    case Dropped => a == Cancel(id, true) && id in s.messages && id in s.scans && !s.scans[id].status.IsTerminal()
                    && s.scans[id].hasTask
    case Started => a == Deliver(id) && id in s.messages && Live(s, id)
    case Succeeded => a == Finalise(id) && id in s.chains && Live(s, id)
    case Broke => a == FailChain(id) && id in s.chains && Live(s, id)
    case CallbackRan => (a == Finalise(id) || a == FailChain(id)) && id in s.chains
    case WasCancelled => a.Cancel? && a.id == id && id in s.scans && !s.scans[id].status.IsTerminal()
    case Deleted => a == Delete(id) && id in s.scans && s.scans[id].status.IsTerminal()
  }

  predicate OccursAt(cap: nat, actions: seq<Action>, k: nat, id: ScanId, e: Event)
    requires k < |actions|
  {
    Occurs(Run(cap, Empty, actions[..k]), actions[k], id, e)
  }

  /** It happened to the scan at some point of the run. */
  predicate Happened(cap: nat, actions: seq<Action>, id: ScanId, e: Event) {
    exists k :: 0 <= k < |actions| && OccursAt(cap, actions, k, id, e)
  }

  lemma {:induction false} RunSnoc(cap: nat, s: State, actions: seq<Action>, a: Action)
    ensures Run(cap, s, actions + [a]) == Apply(cap, Run(cap, s, actions), a)
    decreases |actions|
  {
    if actions == [] {
      assert ([] + [a])[1..] == [];
    } else {
      assert (actions + [a])[1..] == actions[1..] + [a];
      RunSnoc(cap, Apply(cap, s, actions[0]), actions[1..], a);
    }
  }

  /** One more step: what happened is what had happened, or what the step does. */
  lemma HappenedSnoc(cap: nat, actions: seq<Action>, a: Action, id: ScanId, e: Event)
    ensures Happened(cap, actions + [a], id, e) <==>
              Happened(cap, actions, id, e) || Occurs(Run(cap, Empty, actions), a, id, e)
  {
    var longer := actions + [a];
    assert longer[..|actions|] == actions;
    forall k | 0 <= k < |actions| ensures OccursAt(cap, longer, k, id, e) == OccursAt(cap, actions, k, id, e) {
      assert longer[..k] == actions[..k];
    }
    if Occurs(Run(cap, Empty, actions), a, id, e) {
      assert OccursAt(cap, longer, |actions|, id, e);
    }
    if Happened(cap, actions, id, e) {
      var k :| 0 <= k < |actions| && OccursAt(cap, actions, k, id, e);
      assert OccursAt(cap, longer, k, id, e);
    }
  }

  /** Everything that happened to the scan in the run. */
  function Past(cap: nat, actions: seq<Action>, id: ScanId): set<Event> {
    set e: Event | Happened(cap, actions, id, e)
  }

  function Effects(s: State, a: Action, id: ScanId): set<Event> {
    set e: Event | Occurs(s, a, id, e)
  }

  lemma PastSnoc(cap: nat, actions: seq<Action>, a: Action, id: ScanId)
    ensures Past(cap, actions + [a], id) == Past(cap, actions, id) + Effects(Run(cap, Empty, actions), a, id)
  {
    forall e: Event ensures e in Past(cap, actions + [a], id) <==>
                              e in Past(cap, actions, id) + Effects(Run(cap, Empty, actions), a, id) {
      HappenedSnoc(cap, actions, a, id, e);
    }
  }

  /** What the past says of the row's columns. */
  predicate RowExplained(row: Scan, past: set<Event>) {
    && (row.status.Completed? <==> Succeeded in past)
    && (row.status.Failed? <==> Broke in past || Reconciled in past)
    && (row.status.Cancelled? <==> WasCancelled in past && Reconciled !in past)
    && (row.status.Running? <==> Started in past && past !! {Succeeded, Broke, WasCancelled})
    && (row.status.Queued? <==> past !! {Started, Reconciled, WasCancelled})
    && (row.hasTask <==> Recorded in past)
  }

  /** What the past says of everything still owed to the scan. */
  predicate DebtsExplained(s: State, id: ScanId, past: set<Event>) {
    && (id in s.unpublished <==> id in s.issued && past !! {Accepted, Rejected})
    && (id in s.failing <==> Rejected in past && Reconciled !in past)
    && (id in s.unrecorded <==> Accepted in past && Recorded !in past)
    && (id in s.messages <==> Accepted in past && past !! {Delivered, Dropped})
    && (id in s.chains <==> Started in past && CallbackRan !in past)
  }

  /** What comes after what. */
  predicate Coherent(past: set<Event>) {
    && (Accepted in past ==> Rejected !in past)
    && (Delivered in past || Dropped in past || Recorded in past ==> Accepted in past)
    && (Started in past ==> Delivered in past) && (CallbackRan in past ==> Started in past)
    && (Succeeded in past || Broke in past ==> CallbackRan in past) && (Reconciled in past ==> Rejected in past)
  }

  /** The state of a scan is what its past says. */
  predicate Explained(s: State, id: ScanId, past: set<Event>) {
    && (id !in s.issued ==> past == {})
    && (id in s.scans <==> id in s.issued && Deleted !in past)
    && Coherent(past) && DebtsExplained(s, id, past)
    && (id in s.scans ==> RowExplained(s.scans[id], past))
  }

  lemma CreateExplained(cap: nat, s: State, r: Request, id: ScanId, past: set<Event>)
    requires Owned(s) && Explained(s, id, past)
    ensures Explained(CreateStep(cap, s, r), id, past)
  {
  }

  lemma {:induction false} TickExplained(cap: nat, s: State, rs: seq<Request>, id: ScanId, past: set<Event>)
    requires Inv(cap, s) && Explained(s, id, past)
    ensures Explained(TickStep(cap, s, rs), id, past)
    decreases |rs|
  {
    if rs != [] {
      CreateExplained(cap, s, rs[0], id, past);
      CreateKeepsInv(cap, s, rs[0]);
      TickExplained(cap, CreateStep(cap, s, rs[0]), rs[1..], id, past);
    }
  }

  lemma CreationExplained(cap: nat, s: State, a: Action, rs: seq<Request>, id: ScanId, past: set<Event>)
    requires Inv(cap, s) && Explained(s, id, past)
    requires a == Tick(rs) || (|rs| == 1 && a == Create(rs[0]))
    ensures Explained(Apply(cap, s, a), id, past + Effects(s, a, id))
  {
    TickExplained(cap, s, rs, id, past);
    assert Apply(cap, s, a) == TickStep(cap, s, rs);
    assert past + Effects(s, a, id) == past;
  }

  lemma AcceptExplained(cap: nat, s: State, id: ScanId, past: set<Event>)
    requires Owned(s) && Explained(s, id, past)
    ensures Explained(Apply(cap, s, PublishOk(id)), id, past + Effects(s, PublishOk(id), id))
  {
    assert Effects(s, PublishOk(id), id) == if id in s.unpublished then {Accepted} else {};
  }

  lemma RejectExplained(cap: nat, s: State, id: ScanId, past: set<Event>)
    requires Owned(s) && Explained(s, id, past)
    ensures Explained(Apply(cap, s, PublishFail(id)), id, past + Effects(s, PublishFail(id), id))
  {
    assert Effects(s, PublishFail(id), id) == if id in s.unpublished then {Rejected} else {};
  }

  lemma TaskExplained(cap: nat, s: State, id: ScanId, past: set<Event>)
    requires Owned(s) && Explained(s, id, past)
    ensures Explained(Apply(cap, s, RecordTask(id)), id, past + Effects(s, RecordTask(id), id))
  {
    assert Effects(s, RecordTask(id), id) == if id in s.unrecorded then {Recorded} else {};
  }

  lemma FailureExplained(cap: nat, s: State, id: ScanId, past: set<Event>)
    requires Owned(s) && Explained(s, id, past)
    ensures Explained(Apply(cap, s, RecordFailure(id)), id, past + Effects(s, RecordFailure(id), id))
  {
    assert Effects(s, RecordFailure(id), id) == if id in s.failing then {Reconciled} else {};
  }

  lemma DeliveryExplained(cap: nat, s: State, id: ScanId, past: set<Event>)
    requires Owned(s) && Explained(s, id, past)
    ensures Explained(Apply(cap, s, Deliver(id)), id, past + Effects(s, Deliver(id), id))
  {
    assert Effects(s, Deliver(id), id) == if id !in s.messages then {} else if Live(s, id) then {Delivered, Started} else {Delivered};
  }

  lemma FinaliseExplained(cap: nat, s: State, id: ScanId, past: set<Event>)
    requires Owned(s) && Explained(s, id, past)
    ensures Explained(Apply(cap, s, Finalise(id)), id, past + Effects(s, Finalise(id), id))
  {
    assert Effects(s, Finalise(id), id) == if id !in s.chains then {} else if Live(s, id) then {CallbackRan, Succeeded} else {CallbackRan};
  }

  lemma FailChainExplained(cap: nat, s: State, id: ScanId, past: set<Event>)
    requires Owned(s) && Explained(s, id, past)
    ensures Explained(Apply(cap, s, FailChain(id)), id, past + Effects(s, FailChain(id), id))
  {
    assert Effects(s, FailChain(id), id) == if id !in s.chains then {} else if Live(s, id) then {CallbackRan, Broke} else {CallbackRan};
  }

  lemma CancelExplained(cap: nat, s: State, id: ScanId, dropped: bool, past: set<Event>)
    requires Owned(s) && Explained(s, id, past)
    ensures Explained(Apply(cap, s, Cancel(id, dropped)), id, past + Effects(s, Cancel(id, dropped), id))
  {
    assert Effects(s, Cancel(id, dropped), id) == if id !in s.scans || s.scans[id].status.IsTerminal() then {}
           else if dropped && id in s.messages && s.scans[id].hasTask then {WasCancelled, Dropped} else {WasCancelled};
  }

  lemma DeleteExplained(cap: nat, s: State, id: ScanId, past: set<Event>)
    requires Owned(s) && Explained(s, id, past)
    ensures Explained(Apply(cap, s, Delete(id)), id, past + Effects(s, Delete(id), id))
  {
    assert Effects(s, Delete(id), id) == if id in s.scans && s.scans[id].status.IsTerminal() then {Deleted} else {};
  }

  /** The scan a step is about; creations are about none that exists. */
  function Subject(a: Action): set<ScanId> {
    match a
    case Create(_) => {}
    case Tick(_) => {}
    case _ => {a.id}
  }

  lemma OthersExplained(cap: nat, s: State, a: Action, id: ScanId, past: set<Event>)
    requires Explained(s, id, past) && !a.Create? && !a.Tick? && id !in Subject(a)
    ensures Explained(Apply(cap, s, a), id, past + Effects(s, a, id))
  {
    assert past + Effects(s, a, id) == past;
  }

  lemma StepExplained(cap: nat, s: State, a: Action, id: ScanId, past: set<Event>)
    requires Inv(cap, s) && Explained(s, id, past)
    ensures Explained(Apply(cap, s, a), id, past + Effects(s, a, id))
  {
    if a.Create? {
      CreationExplained(cap, s, a, [a.request], id, past);
    } else if a.Tick? {
      CreationExplained(cap, s, a, a.requests, id, past);
    } else if id !in Subject(a) {
      OthersExplained(cap, s, a, id, past);
    } else {
      OwnStepExplained(cap, s, a, id, past);
    }
  }

  lemma OwnStepExplained(cap: nat, s: State, a: Action, id: ScanId, past: set<Event>)
    requires Owned(s) && Explained(s, id, past) && id in Subject(a)
    ensures Explained(Apply(cap, s, a), id, past + Effects(s, a, id))
  {
    match a {
      case PublishOk(_) => AcceptExplained(cap, s, id, past);
      case PublishFail(_) => RejectExplained(cap, s, id, past);
      case RecordTask(_) => TaskExplained(cap, s, id, past);
      case RecordFailure(_) => FailureExplained(cap, s, id, past);
      case Deliver(_) => DeliveryExplained(cap, s, id, past);
      case Finalise(_) => FinaliseExplained(cap, s, id, past);
      case FailChain(_) => FailChainExplained(cap, s, id, past);
      case Cancel(_, dropped) => CancelExplained(cap, s, id, dropped, past);
      case Delete(_) => DeleteExplained(cap, s, id, past);
    }
  }

  /** In every run the row, and all that is owed to it, is exactly what happened to the scan. */
  lemma {:induction false} HistoryExplainsState(cap: nat, actions: seq<Action>, id: ScanId)
    ensures Explained(Run(cap, Empty, actions), id, Past(cap, actions, id))
    decreases |actions|
  {
    if actions == [] {
      assert Past(cap, [], id) == {};
    } else {
      var front, a := actions[..|actions| - 1], actions[|actions| - 1];
      assert actions == front + [a];
      HistoryExplainsState(cap, front, id);
      RunKeepsInv(cap, Empty, front);
      StepExplained(cap, Run(cap, Empty, front), a, id, Past(cap, front, id));
      RunSnoc(cap, Empty, front, a);
      PastSnoc(cap, front, a, id);
    }
  }

  /**
   * Which callback writes which status. In every run a remaining row is completed exactly when the success
   * callback of its chain found it not cancelled, and failed exactly when the error callback did or a refused
   * publish was reconciled; otherwise it is cancelled, running or queued by what else happened to it.
   */
  lemma StatusInEveryRun(cap: nat, actions: seq<Action>, id: ScanId)
    requires id in Run(cap, Empty, actions).scans
    ensures var status := Run(cap, Empty, actions).scans[id].status;
            && (status.Completed? <==> Happened(cap, actions, id, Succeeded))
            && (status.Failed? <==> Happened(cap, actions, id, Broke) || Happened(cap, actions, id, Reconciled))
            && (status.Cancelled? <==>
                  Happened(cap, actions, id, WasCancelled) && !Happened(cap, actions, id, Reconciled))
            && (status.Running? <==> Happened(cap, actions, id, Started) && !Happened(cap, actions, id, CallbackRan)
                                     && !Happened(cap, actions, id, WasCancelled))
    ensures Run(cap, Empty, actions).scans[id].hasTask <==> Happened(cap, actions, id, Recorded)
  {
    HistoryExplainsState(cap, actions, id);
    RunKeepsInv(cap, Empty, actions);
  }

  /** A scan is callable at most once: one message, one chain, one callback. */
  lemma NothingHappensTwice(cap: nat, actions: seq<Action>, id: ScanId, e: Event, j: nat, k: nat)
    requires j < k < |actions| && OccursAt(cap, actions, j, id, e)
    ensures !OccursAt(cap, actions, k, id, e)
  {
    var front := actions[..k];
    assert front[..j] == actions[..j];
    assert OccursAt(cap, front, j, id, e);
    assert e in Past(cap, front, id);
    HistoryExplainsState(cap, front, id);
    RunKeepsInv(cap, Empty, front);
  }

  /** The requests a step brings. */
  function Asked(a: Action): seq<Request> {
    match a
    case Create(r) => [r]
    case Tick(rs) => rs
    case _ => []
  }

  /** Some step of the run asked for a scan of this organisation and target under this id. */
  predicate WasAsked(actions: seq<Action>, id: ScanId, org: OrgId, target: string) {
    exists k, r :: 0 <= k < |actions| && r in Asked(actions[k]) && r.id == id && r.orgId == org && r.target == target
  }

  predicate AsksFor(r: Request, id: ScanId, row: Scan) {
    r.id == id && r.orgId == row.orgId && r.target == row.target
  }

  lemma {:induction false} TickRowsAsked(cap: nat, s: State, rs: seq<Request>, id: ScanId)
    requires id in TickStep(cap, s, rs).scans
    ensures var row := TickStep(cap, s, rs).scans[id];
            (id in s.scans && s.scans[id] == row) || exists r <- rs :: AsksFor(r, id, row)
    decreases |rs|
  {
    if rs != [] {
      var mid := CreateStep(cap, s, rs[0]);
      TickRowsAsked(cap, mid, rs[1..], id);
      if id in mid.scans && !(id in s.scans && s.scans[id] == mid.scans[id]) {
        assert AsksFor(rs[0], id, mid.scans[id]);
      }
    }
  }

  lemma StepRowsAsked(cap: nat, s: State, a: Action, id: ScanId)
    requires id in Apply(cap, s, a).scans
    ensures var row := Apply(cap, s, a).scans[id];
            (id in s.scans && s.scans[id].orgId == row.orgId && s.scans[id].target == row.target)
            || exists r <- Asked(a) :: AsksFor(r, id, row)
  {
    match a {
      case Create(r) =>
        assert Apply(cap, s, a) == TickStep(cap, s, [r]);
        TickRowsAsked(cap, s, [r], id);
      case Tick(rs) => TickRowsAsked(cap, s, rs, id);
      case _ =>
    }
  }

  /** Every row of every run is one that was asked for, in the organisation and with the target asked for. */
  lemma {:induction false} RowsWereAsked(cap: nat, actions: seq<Action>, id: ScanId)
    requires id in Run(cap, Empty, actions).scans
    ensures var row := Run(cap, Empty, actions).scans[id];
            WasAsked(actions, id, row.orgId, row.target)
    decreases |actions|
  {
    if actions != [] {
      var n := |actions| - 1;
      var front, a := actions[..n], actions[n];
      assert actions == front + [a];
      RunSnoc(cap, Empty, front, a);
      StepRowsAsked(cap, Run(cap, Empty, front), a, id);
      var row := Run(cap, Empty, actions).scans[id];
      if r :| r in Asked(a) && AsksFor(r, id, row) {
        assert r in Asked(actions[n]);
      } else {
        RowsWereAsked(cap, front, id);
        var k, r :| 0 <= k < n && r in Asked(front[k]) && r.id == id && r.orgId == row.orgId && r.target == row.target;
        assert r in Asked(actions[k]);
      }
    }
  }
}
