/**
 * The scan lifecycle as one transition system: API handlers, the scheduler's two phases and the
 * worker callbacks over scan rows, a broker and the module chains in flight.
 */
module ScanSlots {
  import opened Results
  import opened Sets

  type OrgId = nat
  type ScanId = nat

  datatype Status = Queued | Running | Completed | Failed | Cancelled {
    predicate IsTerminal() { Completed? || Failed? || Cancelled? }
  }

  /** `hasTask` says whether a broker task id has been written back to the row. */
  datatype Scan = Scan(orgId: OrgId, target: string, status: Status, hasTask: bool)

  /** A scan about to be inserted, with the id its row will get and the schedule behind it, if any. */
  datatype Request = Request(id: ScanId, orgId: OrgId, target: string, schedule: Option<nat>)

  datatype State = State(
    scans: map<ScanId, Scan>,
    issued: set<ScanId>,       // every id ever handed out; ids are never reused
    unpublished: set<ScanId>,  // row committed, broker not called yet
    failing: set<ScanId>,      // broker refused, row not reconciled yet
    unrecorded: set<ScanId>,   // broker accepted, task id not written back yet
    messages: set<ScanId>,     // run_pipeline messages not delivered yet
    chains: set<ScanId>        // module chains whose callback has not run yet
  )

  const Empty := State(map[], {}, {}, {}, {}, {}, {})

  /** Ids of an organisation's scans that count against its concurrency cap. */
  function ActiveIds(scans: map<ScanId, Scan>, org: OrgId): set<ScanId> {
    set id | id in scans && scans[id].orgId == org && !scans[id].status.IsTerminal()
  }

  function Active(scans: map<ScanId, Scan>, org: OrgId): nat {
    |ActiveIds(scans, org)|
  }

  datatype Action =
    | Create(request: Request)            // create_scan and run_schedule_now up to their commit
    | Tick(requests: seq<Request>)        // phase one of dispatch_due_scans, one transaction
    | PublishOk(id: ScanId)
    | PublishFail(id: ScanId)
    | RecordTask(id: ScanId)
    | RecordFailure(id: ScanId)
    | Deliver(id: ScanId)                 // run_pipeline takes the message
    | Finalise(id: ScanId)
    | FailChain(id: ScanId)
    | Cancel(id: ScanId, dropped: bool)   // `dropped`: revoking the task removed its message
    | Delete(id: ScanId)

  function SetStatus(scans: map<ScanId, Scan>, id: ScanId, status: Status): map<ScanId, Scan> {
    if id in scans then scans[id := scans[id].(status := status)] else scans
  }

  /** What the two chain callbacks write: nothing over a cancelled row. */
  function Settle(scans: map<ScanId, Scan>, id: ScanId, status: Status): map<ScanId, Scan> {
    if id in scans && !scans[id].status.Cancelled? then SetStatus(scans, id, status) else scans
  }

  function CreateStep(cap: nat, s: State, r: Request): State {
    if r.id in s.issued || Active(s.scans, r.orgId) >= cap then s else
    s.(scans := s.scans[r.id := Scan(r.orgId, r.target, Queued, false)],
       issued := s.issued + {r.id},
       unpublished := s.unpublished + {r.id})
  }

  /** Phase one of a tick: every request in order, against the counts the earlier ones left. */
  function TickStep(cap: nat, s: State, rs: seq<Request>): State
    decreases |rs|
  {
    if rs == [] then s else TickStep(cap, CreateStep(cap, s, rs[0]), rs[1..])
  }

  function DeliverStep(s: State, id: ScanId): State {
    if id !in s.messages then s else
    var taken := s.(messages := s.messages - {id});
    if id !in s.scans || s.scans[id].status.Cancelled? then taken else
    taken.(scans := SetStatus(s.scans, id, Running), chains := s.chains + {id})
  }

  function Apply(cap: nat, s: State, a: Action): State {
    match a
    case Create(r) => CreateStep(cap, s, r)
    case Tick(rs) => TickStep(cap, s, rs)
    case PublishOk(id) =>
      if id !in s.unpublished then s else
      s.(unpublished := s.unpublished - {id}, messages := s.messages + {id}, unrecorded := s.unrecorded + {id})
    case PublishFail(id) =>
      if id !in s.unpublished then s else
      s.(unpublished := s.unpublished - {id}, failing := s.failing + {id})
    case RecordTask(id) =>
      if id !in s.unrecorded then s else
      s.(unrecorded := s.unrecorded - {id},
         scans := if id in s.scans then s.scans[id := s.scans[id].(hasTask := true)] else s.scans)
    case RecordFailure(id) =>
      if id !in s.failing then s else
      s.(failing := s.failing - {id}, scans := SetStatus(s.scans, id, Failed))
    case Deliver(id) => DeliverStep(s, id)
    case Finalise(id) =>
      if id !in s.chains then s else
      s.(chains := s.chains - {id}, scans := Settle(s.scans, id, Completed))
    case FailChain(id) =>
      if id !in s.chains then s else
      s.(chains := s.chains - {id}, scans := Settle(s.scans, id, Failed))
    case Cancel(id, dropped) =>
      if id !in s.scans || s.scans[id].status.IsTerminal() then s else
      s.(scans := SetStatus(s.scans, id, Cancelled),
         messages := if dropped && s.scans[id].hasTask then s.messages - {id} else s.messages)
    case Delete(id) =>
      if id !in s.scans || !s.scans[id].status.IsTerminal() then s else
      s.(scans := s.scans - {id})
  }

  function Run(cap: nat, s: State, actions: seq<Action>): State
    decreases |actions|
  {
    if actions == [] then s else Run(cap, Apply(cap, s, actions[0]), actions[1..])
  }

  /** Someone still holds the obligation to publish, reconcile or deliver this scan. */
  predicate Waiting(s: State, id: ScanId) {
    id in s.unpublished || id in s.failing || id in s.messages
  }

  ghost predicate CapRespected(cap: nat, s: State) {
    forall org: OrgId :: Active(s.scans, org) <= cap
  }

  /** Every slot has an owner: a queued scan waits somewhere, a running scan has a chain. */
  predicate NoSlotLeaks(s: State) {
    forall id <- s.scans ::
      && (s.scans[id].status.Queued? ==> Waiting(s, id))
      && (s.scans[id].status.Running? ==> id in s.chains)
  }

  /** Obligations are exclusive and only ever held for a scan in the matching status. */
  predicate Owned(s: State) {
    && s.scans.Keys + s.unpublished + s.failing + s.messages + s.chains <= s.issued
    && s.unpublished !! s.failing !! s.messages !! s.chains
    && forall id <- s.scans ::
         && (Waiting(s, id) ==> s.scans[id].status.Queued? || s.scans[id].status.Cancelled?)
         && (id in s.chains ==> s.scans[id].status.Running? || s.scans[id].status.Cancelled?)
  }

  ghost predicate Inv(cap: nat, s: State) {
    CapRespected(cap, s) && NoSlotLeaks(s) && Owned(s)
  }

  lemma ActiveAfterInsert(scans: map<ScanId, Scan>, id: ScanId, scan: Scan, org: OrgId)
    requires id !in scans && !scan.status.IsTerminal()
    ensures Active(scans[id := scan], org) == Active(scans, org) + (if scan.orgId == org then 1 else 0)
  {
    var after := scans[id := scan];
    if scan.orgId == org {
      assert ActiveIds(after, org) == ActiveIds(scans, org) + {id};
    } else {
      assert ActiveIds(after, org) == ActiveIds(scans, org);
    }
  }

  lemma CreateKeepsInv(cap: nat, s: State, r: Request)
    requires Inv(cap, s)
    ensures Inv(cap, CreateStep(cap, s, r))
  {
    if r.id !in s.issued && Active(s.scans, r.orgId) < cap {
      forall org: OrgId ensures Active(CreateStep(cap, s, r).scans, org) <= cap {
        ActiveAfterInsert(s.scans, r.id, Scan(r.orgId, r.target, Queued, false), org);
      }
    }
  }

  lemma {:induction false} TickKeepsInv(cap: nat, s: State, rs: seq<Request>)
    requires Inv(cap, s)
    ensures Inv(cap, TickStep(cap, s, rs))
    decreases |rs|
  {
    if rs != [] {
      CreateKeepsInv(cap, s, rs[0]);
      TickKeepsInv(cap, CreateStep(cap, s, rs[0]), rs[1..]);
    }
  }

  /** A step other than a creation replaces at most one row, and never revives a terminal one. */
  predicate RowsOnlySettle(s: State, t: State) {
    && t.scans.Keys <= s.scans.Keys
    && forall id <- t.scans ::
         t.scans[id].orgId == s.scans[id].orgId
         && (s.scans[id].status.IsTerminal() ==> t.scans[id].status.IsTerminal())
  }

  lemma SettlingKeepsCap(cap: nat, s: State, t: State)
    requires CapRespected(cap, s) && RowsOnlySettle(s, t)
    ensures CapRespected(cap, t)
  {
    forall org: OrgId ensures Active(t.scans, org) <= cap {
      SubsetSize(ActiveIds(t.scans, org), ActiveIds(s.scans, org));
      assert Active(s.scans, org) <= cap;
    }
  }

  lemma PublishKeepsInv(cap: nat, s: State, a: Action)
    requires Inv(cap, s) && (a.PublishOk? || a.PublishFail?)
    ensures Inv(cap, Apply(cap, s, a))
  {
    SettlingKeepsCap(cap, s, Apply(cap, s, a));
  }

  lemma RecordKeepsInv(cap: nat, s: State, a: Action)
    requires Inv(cap, s) && (a.RecordTask? || a.RecordFailure?)
    ensures Inv(cap, Apply(cap, s, a))
  {
    SettlingKeepsCap(cap, s, Apply(cap, s, a));
  }

  lemma DeliverKeepsInv(cap: nat, s: State, a: Action)
    requires Inv(cap, s) && (a.Deliver?)
    ensures Inv(cap, Apply(cap, s, a))
  {
    SettlingKeepsCap(cap, s, Apply(cap, s, a));
  }

  lemma CallbackKeepsInv(cap: nat, s: State, a: Action)
    requires Inv(cap, s) && (a.Finalise? || a.FailChain?)
    ensures Inv(cap, Apply(cap, s, a))
  {
    SettlingKeepsCap(cap, s, Apply(cap, s, a));
  }

  lemma UserStepKeepsInv(cap: nat, s: State, a: Action)
    requires Inv(cap, s) && (a.Cancel? || a.Delete?)
    ensures Inv(cap, Apply(cap, s, a))
  {
    SettlingKeepsCap(cap, s, Apply(cap, s, a));
  }

  /** Every step of every party keeps the invariant. */
  lemma StepKeepsInv(cap: nat, s: State, a: Action)
    requires Inv(cap, s)
    ensures Inv(cap, Apply(cap, s, a))
  {
    match a {
      case Create(r) => CreateKeepsInv(cap, s, r);
      case Tick(rs) => TickKeepsInv(cap, s, rs);
      case PublishOk(_) => PublishKeepsInv(cap, s, a);
      case PublishFail(_) => PublishKeepsInv(cap, s, a);
      case RecordTask(_) => RecordKeepsInv(cap, s, a);
      case RecordFailure(_) => RecordKeepsInv(cap, s, a);
      case Deliver(_) => DeliverKeepsInv(cap, s, a);
      case Finalise(_) => CallbackKeepsInv(cap, s, a);
      case FailChain(_) => CallbackKeepsInv(cap, s, a);
      case Cancel(_, _) => UserStepKeepsInv(cap, s, a);
      case Delete(_) => UserStepKeepsInv(cap, s, a);
    }
  }

  /**
   * No slot leaks, over every run: caps hold for every organisation, every queued scan is waiting
   * for somebody, every running scan has a chain in flight.
   */
  lemma {:induction false} RunKeepsInv(cap: nat, s: State, actions: seq<Action>)
    requires Inv(cap, s)
    ensures Inv(cap, Run(cap, s, actions))
    decreases |actions|
  {
    if actions != [] {
      StepKeepsInv(cap, s, actions[0]);
      RunKeepsInv(cap, Apply(cap, s, actions[0]), actions[1..]);
    }
  }

  predicate Quiescent(s: State) {
    s.unpublished == {} && s.failing == {} && s.messages == {} && s.chains == {}
  }

  /** When nothing is pending anywhere, every scan the run ever left behind is terminal. */
  lemma QuiescentMeansTerminal(cap: nat, actions: seq<Action>)
    requires Quiescent(Run(cap, Empty, actions))
    ensures var s := Run(cap, Empty, actions);
            forall id <- s.scans :: s.scans[id].status.IsTerminal()
  {
    RunKeepsInv(cap, Empty, actions);
  }

  /** Work still owed to a scan: publish, deliver, finish; or publish, reconcile. */
  function Owed(s: State): nat {
    3 * |s.unpublished| + 2 * |s.messages| + |s.failing| + |s.chains|
  }

  /** The step takes up an obligation that is really there. */
  predicate TakesUp(s: State, a: Action) {
    match a
    case PublishOk(id) => id in s.unpublished
    case PublishFail(id) => id in s.unpublished
    case RecordFailure(id) => id in s.failing
    case Deliver(id) => id in s.messages
    case Finalise(id) => id in s.chains
    case FailChain(id) => id in s.chains
    case _ => false
  }

  lemma RemoveAddSize(a: set<ScanId>, id: ScanId)
    ensures id in a ==> |a - {id}| == |a| - 1
    ensures id !in a ==> |a + {id}| == |a| + 1
    ensures |a + {id}| <= |a| + 1 && |a - {id}| <= |a|
  {
    if id in a {
      assert a + {id} == a;
    } else {
      assert a - {id} == a;
    }
  }

  /** Only a creation adds work; every obligation taken up lowers it, so slots drain. */
  lemma ObligationsDrain(cap: nat, s: State, a: Action)
    ensures !a.Create? && !a.Tick? ==> Owed(Apply(cap, s, a)) <= Owed(s)
    ensures TakesUp(s, a) ==> Owed(Apply(cap, s, a)) < Owed(s)
  {
    match a {
      case PublishOk(id) => PublishDrains(cap, s, id);
      case PublishFail(id) => PublishDrains(cap, s, id);
      case Deliver(id) => DeliveryDrains(cap, s, id);
      case RecordFailure(id) => RemoveAddSize(s.failing, id);
      case Finalise(id) => RemoveAddSize(s.chains, id);
      case FailChain(id) => RemoveAddSize(s.chains, id);
      case Cancel(id, _) => RemoveAddSize(s.messages, id);
      case _ =>
    }
  }

  lemma PublishDrains(cap: nat, s: State, id: ScanId)
    ensures Owed(Apply(cap, s, PublishOk(id))) <= Owed(s) && Owed(Apply(cap, s, PublishFail(id))) <= Owed(s)
    ensures id in s.unpublished ==>
              Owed(Apply(cap, s, PublishOk(id))) < Owed(s) && Owed(Apply(cap, s, PublishFail(id))) < Owed(s)
  {
    RemoveAddSize(s.unpublished, id);
    RemoveAddSize(s.messages, id);
    RemoveAddSize(s.failing, id);
  }

  lemma DeliveryDrains(cap: nat, s: State, id: ScanId)
    ensures Owed(Apply(cap, s, Deliver(id))) <= Owed(s)
    ensures id in s.messages ==> Owed(Apply(cap, s, Deliver(id))) < Owed(s)
  {
    RemoveAddSize(s.messages, id);
    RemoveAddSize(s.chains, id);
  }

  /** Each action of the run takes up an obligation present when its turn comes. */
  predicate OnlyTakesUp(cap: nat, s: State, actions: seq<Action>)
    decreases |actions|
  {
    actions == [] || (TakesUp(s, actions[0]) && OnlyTakesUp(cap, Apply(cap, s, actions[0]), actions[1..]))
  }

  /** However the owed work is taken up, it cannot go on for longer than what is owed. */
  lemma {:induction false} WorkRunsOut(cap: nat, s: State, actions: seq<Action>)
    requires OnlyTakesUp(cap, s, actions)
    ensures |actions| + Owed(Run(cap, s, actions)) <= Owed(s)
    decreases |actions|
  {
    if actions != [] {
      ObligationsDrain(cap, s, actions[0]);
      WorkRunsOut(cap, Apply(cap, s, actions[0]), actions[1..]);
    }
  }

  /** An obligation that can be taken up, unless nothing is pending. */
  lemma SomethingToTakeUp(s: State) returns (a: Action)
    requires !Quiescent(s)
    ensures TakesUp(s, a)
  {
    if s.unpublished != {} {
      var id :| id in s.unpublished;
      a := PublishOk(id);
    } else if s.failing != {} {
      var id :| id in s.failing;
      a := RecordFailure(id);
    } else if s.messages != {} {
      var id :| id in s.messages;
      a := Deliver(id);
    } else {
      var id :| id in s.chains;
      a := Finalise(id);
    }
  }

  /** From every state, taking up what is owed reaches a state with nothing pending. */
  lemma {:induction false} PendingWorkDrains(cap: nat, s: State) returns (actions: seq<Action>)
    ensures OnlyTakesUp(cap, s, actions) && Quiescent(Run(cap, s, actions)) && |actions| <= Owed(s)
    decreases Owed(s)
  {
    if Quiescent(s) {
      actions := [];
    } else {
      var a := SomethingToTakeUp(s);
      ObligationsDrain(cap, s, a);
      var rest := PendingWorkDrains(cap, Apply(cap, s, a));
      actions := [a] + rest;
      assert actions[1..] == rest;
      WorkRunsOut(cap, s, actions);
    }
  }

  /**
   * A terminal row of a reachable state changes its status exactly when it is cancelled and the step
   * reconciles its refused publish; then it becomes failed.
   */
  lemma TerminalChangesIff(cap: nat, actions: seq<Action>, a: Action, id: ScanId)
    requires id in Run(cap, Empty, actions).scans
    requires Run(cap, Empty, actions).scans[id].status.IsTerminal()
    ensures var s := Run(cap, Empty, actions);
            var t := Apply(cap, s, a);
            id in t.scans ==>
              && (t.scans[id].status != s.scans[id].status <==>
                    s.scans[id].status.Cancelled? && a == RecordFailure(id) && id in s.failing)
              && (t.scans[id].status != s.scans[id].status ==> t.scans[id].status.Failed?)
  {
    RunKeepsInv(cap, Empty, actions);
    var s := Run(cap, Empty, actions);
    match a {
      case Create(r) => TickKeepsRows(cap, s, [r], id);
      case Tick(rs) => TickKeepsRows(cap, s, rs, id);
      case _ =>
    }
  }

  predicate CancelledNow(s: State, id: ScanId) {
    id in s.scans && s.scans[id].status.Cancelled?
  }

  /** The publication of this scan is still undecided or refused. */
  predicate PublishOpen(s: State, id: ScanId) {
    id in s.unpublished || id in s.failing
  }

  /** What makes a cancelled row stay: its id is used and no publish of it can be refused any more. */
  predicate CancelHolds(s: State, id: ScanId) {
    id in s.issued && !PublishOpen(s, id) && (id in s.scans ==> s.scans[id].status.Cancelled?)
  }

  lemma {:induction false} TickKeepsCancelHolds(cap: nat, s: State, rs: seq<Request>, id: ScanId)
    requires CancelHolds(s, id)
    ensures CancelHolds(TickStep(cap, s, rs), id)
    decreases |rs|
  {
    if rs != [] {
      TickKeepsCancelHolds(cap, CreateStep(cap, s, rs[0]), rs[1..], id);
    }
  }

  lemma {:induction false} CancelStays(cap: nat, s: State, actions: seq<Action>, id: ScanId)
    requires CancelHolds(s, id)
    ensures CancelHolds(Run(cap, s, actions), id)
    decreases |actions|
  {
    if actions != [] {
      if actions[0].Tick? {
        TickKeepsCancelHolds(cap, s, actions[0].requests, id);
      }
      CancelStays(cap, Apply(cap, s, actions[0]), actions[1..], id);
    }
  }

  predicate EndsFailed(s: State, id: ScanId) {
    id in s.scans && s.scans[id].status.Failed?
  }

  /** An open publish can still be refused, and the reconciliation then overwrites the cancel. */
  lemma OpenPublishCanFail(cap: nat, s: State, id: ScanId) returns (actions: seq<Action>)
    requires CancelledNow(s, id) && PublishOpen(s, id)
    ensures EndsFailed(Run(cap, s, actions), id)
  {
    var last := [RecordFailure(id)];
    assert last[1..] == [];
    if id in s.failing {
      actions := last;
      assert Run(cap, s, last) == Apply(cap, s, RecordFailure(id));
    } else {
      var mid := Apply(cap, s, PublishFail(id));
      actions := [PublishFail(id)] + last;
      assert actions[1..] == last;
      assert Run(cap, mid, last) == Apply(cap, mid, RecordFailure(id));
    }
  }

  predicate FailsAfter(cap: nat, s: State, actions: seq<Action>, id: ScanId) {
    EndsFailed(Run(cap, s, actions), id)
  }

  /** Exactly when a cancel can still be overwritten: some continuation ends failed just while the publish is open. */
  lemma CancelCanFailIff(cap: nat, s: State, id: ScanId)
    requires Inv(cap, s) && CancelledNow(s, id)
    ensures (exists actions :: FailsAfter(cap, s, actions, id)) <==> PublishOpen(s, id)
  {
    if PublishOpen(s, id) {
      var actions := OpenPublishCanFail(cap, s, id);
      assert FailsAfter(cap, s, actions, id);
    } else {
      forall actions ensures !FailsAfter(cap, s, actions, id) {
        CancelStays(cap, s, actions, id);
      }
    }
  }

  /** A recorded task id, or one about to be recorded, means the broker has accepted. */
  predicate TasksAccepted(s: State) {
    && s.unrecorded <= s.issued && s.unrecorded !! s.unpublished && s.unrecorded !! s.failing
    && s.unpublished !! s.failing && s.scans.Keys + s.unpublished + s.failing <= s.issued
    && forall id <- s.scans :: s.scans[id].hasTask ==> !PublishOpen(s, id)
  }

  lemma {:induction false} TickKeepsTasks(cap: nat, s: State, rs: seq<Request>)
    requires TasksAccepted(s)
    ensures TasksAccepted(TickStep(cap, s, rs))
    decreases |rs|
  {
    if rs != [] {
      TickKeepsTasks(cap, CreateStep(cap, s, rs[0]), rs[1..]);
    }
  }

  lemma StepKeepsTasks(cap: nat, s: State, a: Action)
    requires TasksAccepted(s)
    ensures TasksAccepted(Apply(cap, s, a))
  {
    if a.Tick? {
      TickKeepsTasks(cap, s, a.requests);
    }
  }

  lemma {:induction false} RunKeepsTasks(cap: nat, s: State, actions: seq<Action>)
    requires TasksAccepted(s)
    ensures TasksAccepted(Run(cap, s, actions))
    decreases |actions|
  {
    if actions != [] {
      StepKeepsTasks(cap, s, actions[0]);
      RunKeepsTasks(cap, Apply(cap, s, actions[0]), actions[1..]);
    }
  }

  /** What a canceller can check: with a task id on the row the cancel is final, whatever happens afterwards. */
  lemma RecordedTaskMakesCancelFinal(cap: nat, before: seq<Action>, id: ScanId, after: seq<Action>)
    requires CancelledNow(Run(cap, Empty, before), id) && Run(cap, Empty, before).scans[id].hasTask
    ensures var t := Run(cap, Run(cap, Empty, before), after);
            id in t.scans ==> t.scans[id].status.Cancelled?
  {
    RunKeepsTasks(cap, Empty, before);
    CancelStays(cap, Run(cap, Empty, before), after, id);
  }

  lemma {:induction false} TickKeepsRows(cap: nat, s: State, rs: seq<Request>, id: ScanId)
    requires Owned(s) && id in s.scans
    ensures id in TickStep(cap, s, rs).scans && TickStep(cap, s, rs).scans[id] == s.scans[id]
    decreases |rs|
  {
    if rs != [] {
      TickKeepsRows(cap, CreateStep(cap, s, rs[0]), rs[1..], id);
    }
  }

  /** A cancelled scan whose publish was already refused is reported as failed. */
  lemma CancelledCanBecomeFailed(cap: nat)
    requires cap > 0
    ensures var r := Request(0, 0, "example.com", None);
            var before := Run(cap, Empty, [Create(r), PublishFail(0), Cancel(0, false)]);
            var after := Apply(cap, before, RecordFailure(0));
            0 in before.scans && before.scans[0].status == Cancelled && 0 in after.scans && after.scans[0].status == Failed
  {
    var r := Request(0, 0, "example.com", None);
    assert ActiveIds(map[], 0) == {};
    var s1 := Apply(cap, Empty, Create(r));
    var s2 := Apply(cap, s1, PublishFail(0));
    var s3 := Apply(cap, s2, Cancel(0, false));
    assert s3.scans[0].status == Cancelled && 0 in s3.failing;
    var rest := [PublishFail(0), Cancel(0, false)];
    assert [Create(r), PublishFail(0), Cancel(0, false)][1..] == rest;
    assert rest[1..] == [Cancel(0, false)];
    assert Run(cap, s1, rest) == Run(cap, s2, [Cancel(0, false)]) == s3;
  }
}
