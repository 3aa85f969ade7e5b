/**
 * The handlers that move scans: create, hand over to the broker, cancel, delete (backend/routes/scans.py,
 * backend/routes/schedules.py) and the worker tasks (backend/workers/orchestrator.py). Each one is proved
 * to be the matching step of the lifecycle in ScanSlots.
 */
module ScanService {
  import opened Results
  import opened Scope
  import opened ScanSlots
  import opened Dispatch

  datatype HttpError = NotFound | Forbidden | TooManyScans | QueueUnavailable | Conflict

  datatype TaskResult = Missing | WasCancelled | PipelineDispatched | Settled(status: Status)

  class Service {
    const settings: Settings
    var orgs: map<OrgId, Organisation>
    var scans: map<ScanId, Scan>
    var issued: set<ScanId>
    var unpublished: set<ScanId>
    var failing: set<ScanId>
    var unrecorded: set<ScanId>
    var messages: set<ScanId>
    var chains: set<ScanId>

    constructor (settings: Settings)
      ensures this.settings == settings && orgs == map[] && Now() == Empty
    {
      this.settings := settings;
      orgs, scans := map[], map[];
      issued, unpublished, failing, unrecorded, messages, chains := {}, {}, {}, {}, {}, {};
    }

    function Now(): State
      reads this
    {
      State(scans, issued, unpublished, failing, unrecorded, messages, chains)
    }

    /** `create_scan` and `run_schedule_now` up to their commit; the id is one never used before. */
    method QueueScan(orgId: OrgId, target: string, schedule: Option<nat>, id: ScanId) returns (r: Result<Request, HttpError>)
      requires id !in issued && Owned(Now())
      modifies this
      ensures orgs == old(orgs)
      ensures r == if orgId !in orgs then Failure(NotFound) else
                   match settings.authorise(target, Keys(orgs[orgId].verifiedDomains))
                   case Failure(_) => Failure(Forbidden)
                   case Success(host) =>
                     if Active(old(scans), orgId) >= settings.cap then Failure(TooManyScans)
                     else Success(Request(id, orgId, host, schedule))
      ensures Now() == if r.Success? then Apply(settings.cap, old(Now()), Create(r.value)) else old(Now())
      ensures r.Success? ==> Active(scans, orgId) == Active(old(scans), orgId) + 1
    {
      if orgId !in orgs {
        return Failure(NotFound);
      }
      var domains := AllDomains(orgs[orgId].verifiedDomains);
      var host := settings.authorise(target, domains);
      if host.Failure? {
        return Failure(Forbidden);
      }
      if Active(scans, orgId) >= settings.cap {
        return Failure(TooManyScans);
      }
      var scan := Scan(orgId, host.value, Queued, false);
      ActiveAfterInsert(scans, id, scan, orgId);
      scans := scans[id := scan];
      issued := issued + {id};
      unpublished := unpublished + {id};
      r := Success(Request(id, orgId, host.value, schedule));
    }

    /** The broker call after the commit, and the reconciliation of its answer. */
    method HandOver(id: ScanId, accepted: bool) returns (r: Result<(), HttpError>)
      requires id in unpublished && Owned(Now())
      modifies this
      ensures orgs == old(orgs) && (r.Success? <==> accepted)
      ensures Now() == if accepted
                       then Apply(settings.cap, Apply(settings.cap, old(Now()), PublishOk(id)), RecordTask(id))
                       else Apply(settings.cap, Apply(settings.cap, old(Now()), PublishFail(id)), RecordFailure(id))
    {
      unpublished := unpublished - {id};
      if accepted {
        messages := messages + {id};
        unrecorded := unrecorded + {id};
        if id in scans {
          scans := scans[id := scans[id].(hasTask := true)];
        }
        unrecorded := unrecorded - {id};
        return Success(());
      }
      failing := failing + {id};
      if id in scans {
        scans := scans[id := scans[id].(status := Failed)];
      }
      failing := failing - {id};
      r := Failure(QueueUnavailable);
    }

    /** `cancel_scan`, scoped to the caller's organisation. `dropped` is whether revoking removed the message. */
    method CancelScan(orgId: OrgId, id: ScanId, dropped: bool) returns (r: Result<(), HttpError>)
      modifies this
      ensures orgs == old(orgs)
      ensures r == if id !in old(scans) || old(scans[id]).orgId != orgId then Failure(NotFound)
                   else if old(scans[id]).status.IsTerminal() then Failure(Conflict) else Success(())
      ensures Now() == if r.Success? then Apply(settings.cap, old(Now()), Cancel(id, dropped)) else old(Now())
    {
      if id !in scans || scans[id].orgId != orgId {
        return Failure(NotFound);
      }
      if scans[id].status.IsTerminal() {
        return Failure(Conflict);
      }
      if scans[id].hasTask && dropped {
        messages := messages - {id};
      }
      scans := scans[id := scans[id].(status := Cancelled)];
      r := Success(());
    }

    method DeleteScan(orgId: OrgId, id: ScanId) returns (r: Result<(), HttpError>)
      modifies this
      ensures orgs == old(orgs)
      ensures r == if id !in old(scans) || old(scans[id]).orgId != orgId then Failure(NotFound)
                   else if !old(scans[id]).status.IsTerminal() then Failure(Conflict) else Success(())
      ensures Now() == if r.Success? then Apply(settings.cap, old(Now()), Delete(id)) else old(Now())
    {
      if id !in scans || scans[id].orgId != orgId {
        return Failure(NotFound);
      }
      if scans[id].status.Queued? || scans[id].status.Running? {
        return Failure(Conflict);
      }
      scans := scans - {id};
      r := Success(());
    }

    /** `run_pipeline` on delivery of its message. */
    method RunPipeline(id: ScanId) returns (r: TaskResult)
      requires id in messages
      modifies this
      ensures orgs == old(orgs) && Now() == Apply(settings.cap, old(Now()), Deliver(id))
      ensures r.PipelineDispatched? <==> id in old(scans) && !old(scans[id]).status.Cancelled?
      ensures r.PipelineDispatched? ==> id in chains && scans[id].status.Running?
    {
      messages := messages - {id};
      if id !in scans {
        return Missing;
      }
      if scans[id].status.Cancelled? {
        return WasCancelled;
      }
      scans := scans[id := scans[id].(status := Running)];
      chains := chains + {id};
      r := PipelineDispatched;
    }

    /** `finalise_scan` on success of the chain, `fail_scan` on its error: a cancelled row keeps its status. */
    method CloseScan(id: ScanId, succeeded: bool) returns (r: TaskResult)
      requires id in chains
      modifies this
      ensures orgs == old(orgs)
      ensures Now() == Apply(settings.cap, old(Now()), if succeeded then Finalise(id) else FailChain(id))
      ensures id in old(scans) && old(scans[id]).status.Cancelled? ==> scans == old(scans) && r == Settled(Cancelled)
      ensures id in old(scans) && !old(scans[id]).status.Cancelled? ==>
                id in scans && scans[id].status == (if succeeded then Completed else Failed) && r == Settled(scans[id].status)
      ensures r.Missing? <==> id !in old(scans)
    {
      chains := chains - {id};
      if id !in scans {
        return Missing;
      }
      if !scans[id].status.Cancelled? {
        scans := scans[id := scans[id].(status := if succeeded then Completed else Failed)];
      }
      r := Settled(scans[id].status);
    }
  }
}
