/** The routes: every command goes to the operation it names, which takes the step that the theorems over schedules are
    about and leaves the tables valid. */
module Api {
  import opened Text
  import opened Store
  import opened Requests
  import opened Plans
  import opened Invariants
  import opened Safety
  import opened Service

  /** Requests about campaigns, prospects and policies. */
  method HandleIntake(service: ProspectingService, c: Caller, request: Request) returns (r: Response)
    requires IsIntake(request)
    modifies service
    ensures Outcome(service.Snapshot(), r) == Step(old(service.Snapshot()), By(c, request))
  {
    StepIsDecided(service.Snapshot(), c, request);
    match request {
      case CreateCampaign(id, made) => r := service.CreateCampaign(c, id, made);
      case CreateProspect(id, form, now) => r := service.CreateProspect(c, id, form, now);
      case BulkCsv(campaign, headers, rows, note) => r := service.CreateFromCsv(c, campaign, headers, rows, note);
      case Promote(pid, vertical, brand, includeEmail, crm) =>
        r := service.PromoteProspect(c, pid, vertical, brand, includeEmail, crm);
      case UpdateProspect(pid, patch, now) => r := service.UpdateProspect(c, pid, patch, now);
      case UpdatePolicy(policy) => r := service.UpdatePolicy(c, policy);
    }
  }

  /** Requests about analyses, proposals and suppressions. */
  method HandleOutreach(service: ProspectingService, c: Caller, request: Request) returns (r: Response)
    requires !IsIntake(request)
    modifies service
    ensures Outcome(service.Snapshot(), r) == Step(old(service.Snapshot()), By(c, request))
  {
    StepIsDecided(service.Snapshot(), c, request);
    match request {
      case RunAnalysis(pid, id, url, audit, now) => r := service.RunAnalysis(c, pid, id, url, audit, now);
      case GenerateProposal(pid, analysis, id) => r := service.GenerateProposal(c, pid, analysis, id);
      case UpdateProposal(id, changes) => r := service.UpdateProposal(c, id, changes);
      case ApproveProposal(id, av, cv, ca, lv, note, now) =>
        r := service.ApproveProposal(c, id, av, cv, ca, lv, note, now);
      case CreateShare(id, token, expires) => r := service.CreateShare(c, id, token, expires);
      case Deliver(f) => r := service.DeliverProposal(c, f);
      case AddSuppression(email, reason, about) => r := service.AddSuppression(c, email, reason, about);
    }
  }

  /** Any command at all. */
  method Handle(service: ProspectingService, cmd: Command) returns (r: Response)
    requires Inv(service.Snapshot())
    modifies service
    ensures Outcome(service.Snapshot(), r) == Step(old(service.Snapshot()), cmd)
    ensures Inv(service.Snapshot())
  {
    StepKeepsInv(service.Snapshot(), cmd);
    match cmd {
      case OptOut(pid, token) => r := service.PublicOptOut(pid, token);
      case By(c, request) =>
        if IsIntake(request) {
          r := HandleIntake(service, c, request);
        } else {
          r := HandleOutreach(service, c, request);
        }
    }
  }
}
