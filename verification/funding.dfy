/** The funding endpoint (POST /api/projects/:id/fund): validation, the
    storage transaction around the project read and the two writes, and the
    optional payment through the mobile-money proxy. The storage is an
    in-memory ledger; BEGIN takes a snapshot and ROLLBACK restores it. */
module Funding {
  import opened JsValues
  import opened PaymentStatus
  import opened Phone
  import opened Poller

  const NdaliProvider: string := "MTN MoMo (Ndali)"
  const SimulatedProvider: string := "MTN MoMo (simulated)"
  const InvalidPhoneError: string := "Enter a valid mobile number"
  const InvalidAmountError: string := "Amount must be a positive number"
  const ProjectNotFoundError: string := "Project not found"
  const TransactionFailedError: string := "Transaction failed"
  const FundedMessage: string := "Payment successful"

  /** A row of the projects table; amounts are exact, NUMERIC rounding is
      not modelled. */
  datatype ProjectRow = ProjectRow(
    id: string, title: string, description: string, goal: real, raised: real,
    ownerName: string, ownerEmail: string, createdAt: int)

  /** A row of the pledges table (its generated id and timestamp are left out). */
  datatype Pledge = Pledge(projectId: string, amount: real, phone: string)

  /** The body sent to the proxy's pay endpoint. */
  datatype PaymentRequest = PaymentRequest(
    msisdn: string, amount: real, reference: string, payerMessage: string, payeeNote: string)

  /** The transaction descriptor returned to the browser. */
  datatype Transaction = Transaction(id: Json, provider: string, status: string, amount: real, phone: string)

  datatype FundResponse =
    | Refused(code: int, error: string)
    | Funded(message: string, transaction: Transaction, project: ProjectRow)

  /** Which storage statement of the request fails, if any. */
  datatype DbFault = NoFault | BeginFails | SelectFails | InsertFails | UpdateFails | CommitFails

  /** The payment proxy as configured and as it behaves for this request:
      the API key ("" when unset), the poll timeout, the reply to the
      initiation request, and the clock readings and status replies the
      poller will see. */
  datatype Gateway = Gateway(
    apiKey: string, timeoutMs: int, initiate: PaymentRequest -> Reply,
    clock: seq<int>, statuses: seq<Reply>)
  {
    predicate Ready() {
      apiKey != "" ==> ClockRunsOut(clock, statuses, timeoutMs)
    }
  }

  predicate IsPositiveAmount(amount: JsNumber) {
    amount.Finite? && amount.value > 0.0
  }

  predicate FailsBeforeLookup(fault: DbFault) {
    fault.BeginFails? || fault.SelectFails?
  }

  /** The initiation request: the caller's phone as String(phone), the
      amount, the first eight characters of the project id as reference. */
  function InitiationRequest(project: ProjectRow, amt: real, phone: Json): (r: PaymentRequest)
    ensures r.reference <= project.id && |r.reference| == Min(8, |project.id|)
    ensures r.msisdn == ToJsString(phone) && r.amount == amt
  {
    PaymentRequest(ToJsString(phone), amt, project.id[..Min(8, |project.id|)],
                   "Koleka Pledge", "Pledge for " + project.title)
  }

  /** The provider reference of a payment the proxy confirmed, or None when
      the request falls back to the simulated transaction: no API key, a
      failed initiation, a reply without reference id, a failed poll, or a
      poll whose status is not SUCCESSFUL. */
  function ConfirmedReference(g: Gateway, project: ProjectRow, amt: real, phone: Json): (r: Option<Json>)
    requires g.Ready()
    ensures r.Some? ==> Truthy(r.value)
  {
    if g.apiKey == "" then None
    else
      match g.initiate(InitiationRequest(project, amt, phone))
      case Failed(_) => None
      case Answer(init) =>
        var refId := ExtractReferenceId(init);
        if !Present(refId) then None
        else
          var run := PollSpec(g.clock, g.statuses, g.timeoutMs);
          if run.outcome.Returned? && IsSuccessfulStatus(Some(run.outcome.result.statusValue)) then refId
          else None
  }

  /** The descriptor a committed request returns. */
  function ExpectedTransaction(g: Gateway, project: ProjectRow, amt: real, phone: Json, uuidHead: string): (t: Transaction)
    requires g.Ready()
    ensures t.status == "SUCCESS" && t.amount == amt && t.phone == ToJsString(phone)
    ensures t.provider == NdaliProvider <==> ConfirmedReference(g, project, amt, phone).Some?
    ensures ConfirmedReference(g, project, amt, phone).Some? ==> t.id == ConfirmedReference(g, project, amt, phone).value
    ensures ConfirmedReference(g, project, amt, phone).None? ==> t.id == Str("TX-" + Upper(uuidHead))
    ensures ConfirmedReference(g, project, amt, phone).None? ==> t.provider == SimulatedProvider
  {
    var simulated := Transaction(Str("TX-" + Upper(uuidHead)), SimulatedProvider, "SUCCESS", amt, ToJsString(phone));
    match ConfirmedReference(g, project, amt, phone)
    case Some(ref) => simulated.(provider := NdaliProvider, id := ref)
    case None => simulated
  }

  /** The proxy is credited with a payment only when the poll returned,
      before the deadline, a reply whose status is SUCCESSFUL, and the
      reference reported is the one the initiation reply carried. */
  lemma ConfirmedOnlyBySuccessfulReply(g: Gateway, project: ProjectRow, amt: real, phone: Json)
    requires g.Ready()
    requires ConfirmedReference(g, project, amt, phone).Some?
    ensures g.apiKey != ""
    ensures var init := g.initiate(InitiationRequest(project, amt, phone));
      init.Answer? && ExtractReferenceId(init.payload) == ConfirmedReference(g, project, amt, phone)
    ensures var run := PollSpec(g.clock, g.statuses, g.timeoutMs);
      && run.outcome.Returned? && !run.outcome.result.timedOut
      && 1 <= run.queries <= |g.statuses|
      && g.statuses[run.queries - 1].Answer?
      && IsSuccessfulStatus(ExtractStatusValue(g.statuses[run.queries - 1].payload))
  {
    var run := PollSpec(g.clock, g.statuses, g.timeoutMs);
    if run.outcome.result.timedOut {
      TimedOutIsNeverFinal(g.clock, g.statuses, g.timeoutMs);
      assert false;
    }
    PollReturnsFinal(g.clock, g.statuses, g.timeoutMs);
  }

  /** Conversely, an API key, an initiation reply with a reference id and a
      poll that returns a SUCCESSFUL status credit the proxy with that
      reference. */
  lemma ConfirmedBySuccessfulReply(g: Gateway, project: ProjectRow, amt: real, phone: Json)
    requires g.Ready() && g.apiKey != ""
    requires var init := g.initiate(InitiationRequest(project, amt, phone));
      init.Answer? && Present(ExtractReferenceId(init.payload))
    requires var run := PollSpec(g.clock, g.statuses, g.timeoutMs);
      run.outcome.Returned? && IsSuccessfulStatus(Some(run.outcome.result.statusValue))
    ensures ConfirmedReference(g, project, amt, phone)
      == ExtractReferenceId(g.initiate(InitiationRequest(project, amt, phone)).payload)
  {
  }

  /** Every gateway problem falls back to the simulated transaction. */
  lemma EveryGatewayProblemFallsBack(g: Gateway, project: ProjectRow, amt: real, phone: Json)
    requires g.Ready()
    ensures var init := g.initiate(InitiationRequest(project, amt, phone));
      && (g.apiKey == "" ==> ConfirmedReference(g, project, amt, phone).None?)
      && (init.Failed? ==> ConfirmedReference(g, project, amt, phone).None?)
      && (init.Answer? && !Present(ExtractReferenceId(init.payload)) ==> ConfirmedReference(g, project, amt, phone).None?)
      && (g.apiKey != "" && PollSpec(g.clock, g.statuses, g.timeoutMs).outcome.Threw? ==>
            ConfirmedReference(g, project, amt, phone).None?)
      && (g.apiKey != "" && PollSpec(g.clock, g.statuses, g.timeoutMs).outcome.Returned?
            && PollSpec(g.clock, g.statuses, g.timeoutMs).outcome.result.timedOut ==>
            ConfirmedReference(g, project, amt, phone).None?)
  {
    if g.apiKey != "" {
      var run := PollSpec(g.clock, g.statuses, g.timeoutMs);
      if run.outcome.Returned? && run.outcome.result.timedOut {
        TimedOutIsNeverFinal(g.clock, g.statuses, g.timeoutMs);
      }
    }
  }

  /** The payment step of the handler: start from the simulated
      transaction and, when an API key is set, initiate the payment and poll
      it. Every error and every status other than SUCCESSFUL is caught and
      leaves the simulated transaction in place. */
  method AttemptPayment(gateway: Gateway, project: ProjectRow, amt: real, phone: Json, uuidHead: string)
    returns (transaction: Transaction)
    requires gateway.Ready()
    ensures transaction == ExpectedTransaction(gateway, project, amt, phone, uuidHead)
  {
    transaction := Transaction(Str("TX-" + Upper(uuidHead)), SimulatedProvider, "SUCCESS", amt, ToJsString(phone));
    if gateway.apiKey != "" {
      var init := gateway.initiate(InitiationRequest(project, amt, phone));
      if init.Answer? {
        var refId := ExtractReferenceId(init.payload);
        if Present(refId) {
          var polled, _ := PollPaymentStatus(gateway.clock, gateway.statuses, gateway.timeoutMs);
          if polled.Returned? && IsSuccessfulStatus(Some(polled.result.statusValue)) {
            transaction := transaction.(provider := NdaliProvider, id := refId.value);
          }
          // Otherwise "Payment not successful" is thrown and caught at once.
        }
      }
      // A failed initiation or poll is caught and logged.
    }
  }

  /** The amount pledged to one project over a sequence of pledges. */
  function Raised(pledges: seq<Pledge>, id: string): real
    decreases |pledges|
  {
    if pledges == [] then 0.0
    else
      var last := pledges[|pledges| - 1];
      Raised(pledges[..|pledges| - 1], id) + (if last.projectId == id then last.amount else 0.0)
  }

  /** Appending a pledge adds its amount to its own project's total only. */
  lemma RaisedAppend(pledges: seq<Pledge>, p: Pledge, id: string)
    ensures Raised(pledges + [p], id) == Raised(pledges, id) + (if p.projectId == id then p.amount else 0.0)
  {
    assert (pledges + [p])[..|pledges|] == pledges;
  }

  /** With positive pledges, a project's total is never negative. */
  lemma {:induction false} RaisedNonNegative(pledges: seq<Pledge>, id: string)
    requires forall i :: 0 <= i < |pledges| ==> pledges[i].amount > 0.0
    ensures Raised(pledges, id) >= 0.0
  {
    if pledges != [] {
      RaisedNonNegative(pledges[..|pledges| - 1], id);
    }
  }

  /** Rows are keyed by their id, every pledge is positive and refers to an
      existing project, and each project's raised total is the sum of its
      pledges (projects start with raised = 0). */
  ghost predicate ValidState(projects: map<string, ProjectRow>, pledges: seq<Pledge>) {
    && (forall id :: id in projects ==> projects[id].id == id)
    && (forall i :: 0 <= i < |pledges| ==> pledges[i].projectId in projects && pledges[i].amount > 0.0)
    && (forall id :: id in projects ==> projects[id].raised == Raised(pledges, id))
  }

  /** The projects table after `raised = raised + amt` on the row `id`:
      only that row's total changes. */
  function Credit(projects: map<string, ProjectRow>, id: string, amt: real): (r: map<string, ProjectRow>)
    requires id in projects
    ensures r.Keys == projects.Keys
    ensures r[id] == projects[id].(raised := projects[id].raised + amt)
    ensures forall other :: other in projects && other != id ==> r[other] == projects[other]
  {
    projects[id := projects[id].(raised := projects[id].raised + amt)]
  }

  /** Committing one positive pledge together with the matching raised
      increment keeps the ledger consistent. */
  lemma PledgeKeepsLedgerValid(projects: map<string, ProjectRow>, pledges: seq<Pledge>, id: string, amt: real, phone: string)
    requires ValidState(projects, pledges) && id in projects && amt > 0.0
    ensures ValidState(Credit(projects, id, amt),
                       pledges + [Pledge(id, amt, phone)])
  {
    var p := Pledge(id, amt, phone);
    var after, added := Credit(projects, id, amt), pledges + [p];
    forall i | 0 <= i < |added| ensures added[i].projectId in after && added[i].amount > 0.0 {
      if i < |pledges| {
        assert added[i] == pledges[i];
      }
    }
    forall other | other in after ensures after[other].raised == Raised(added, other) {
      RaisedAppend(pledges, p, other);
    }
  }

  class Ledger {
    var projects: map<string, ProjectRow>
    var pledges: seq<Pledge>

    ghost predicate Valid()
      reads this
    {
      ValidState(projects, pledges)
    }

    constructor ()
      ensures Valid() && projects == map[] && pledges == []
    {
      projects := map[];
      pledges := [];
    }

    /** The statements after the payment step: INSERT the pledge, UPDATE
        the raised total, COMMIT; the first failing statement rolls the
        transaction back to the snapshot taken at BEGIN. */
    method WritePledge(project: ProjectRow, amt: real, phone: string, fault: DbFault)
      returns (committed: bool, updated: ProjectRow)
      requires Valid() && project.id in projects && projects[project.id] == project && amt > 0.0
      requires !FailsBeforeLookup(fault)
      modifies this
      ensures Valid()
      ensures committed <==> fault.NoFault?
      ensures committed ==>
        && pledges == old(pledges) + [Pledge(project.id, amt, phone)]
        && projects == Credit(old(projects), project.id, amt)
        && updated == projects[project.id]
      ensures !committed ==> projects == old(projects) && pledges == old(pledges)
    {
      var savedProjects, savedPledges := projects, pledges;
      updated := project;
      committed := false;
      if fault.InsertFails? {
        return;
      }
      pledges := pledges + [Pledge(project.id, amt, phone)];
      if fault.UpdateFails? {
        projects, pledges := savedProjects, savedPledges;
        return;
      }
      projects := Credit(projects, project.id, amt);
      updated := projects[project.id];
      if fault.CommitFails? {
        projects, pledges := savedProjects, savedPledges;
        return;
      }
      PledgeKeepsLedgerValid(savedProjects, savedPledges, project.id, amt, phone);
      committed := true;
    }

    /** The handler once the project row is read: the payment step, then
        the two writes and COMMIT. Only a failing write or COMMIT refuses the
        request, with 500 and nothing recorded. */
    method PayAndRecord(project: ProjectRow, amt: real, phone: Json, gateway: Gateway,
                        uuidHead: string, fault: DbFault)
      returns (response: FundResponse)
      requires Valid() && gateway.Ready() && amt > 0.0
      requires project.id in projects && projects[project.id] == project
      requires !FailsBeforeLookup(fault)
      modifies this
      ensures Valid()
      ensures response.Funded? <==> fault.NoFault?
      ensures response.Refused? ==>
        response == Refused(500, TransactionFailedError) && projects == old(projects) && pledges == old(pledges)
      ensures response.Funded? ==>
        && pledges == old(pledges) + [Pledge(project.id, amt, ToJsString(phone))]
        && projects == Credit(old(projects), project.id, amt)
        && response.project == projects[project.id]
        && response.message == FundedMessage
        && response.transaction == ExpectedTransaction(gateway, project, amt, phone, uuidHead)
    {
      var transaction := AttemptPayment(gateway, project, amt, phone, uuidHead);
      var committed, updated := WritePledge(project, amt, ToJsString(phone), fault);
      if !committed {
        return Refused(500, TransactionFailedError);
      }
      response := Funded(FundedMessage, transaction, updated);
    }

    /** The funding handler. Phone and amount are checked before any
        storage statement. Inside the transaction the project is read, the
        payment is attempted when an API key is set, one pledge is inserted
        and the project's raised total is incremented; any failing statement
        rolls both writes back. A failed or unsuccessful payment is caught
        and the pledge is recorded with the simulated transaction. */
    method Fund(projectId: string, phone: Json, amount: JsNumber, gateway: Gateway,
                uuidHead: string, fault: DbFault)
      returns (response: FundResponse)
      requires Valid() && gateway.Ready()
      modifies this
      ensures Valid()
      ensures !PhoneIsValid(phone) ==> response == Refused(400, InvalidPhoneError)
      ensures PhoneIsValid(phone) && !IsPositiveAmount(amount) ==> response == Refused(400, InvalidAmountError)
      ensures PhoneIsValid(phone) && IsPositiveAmount(amount) && FailsBeforeLookup(fault) ==>
        response == Refused(500, TransactionFailedError)
      ensures PhoneIsValid(phone) && IsPositiveAmount(amount) && !FailsBeforeLookup(fault) && projectId !in old(projects) ==>
        response == Refused(404, ProjectNotFoundError)
      ensures PhoneIsValid(phone) && IsPositiveAmount(amount) && !fault.NoFault? && projectId in old(projects) ==>
        response == Refused(500, TransactionFailedError)
      ensures response.Funded? <==>
        PhoneIsValid(phone) && IsPositiveAmount(amount) && fault.NoFault? && projectId in old(projects)
      ensures response.Refused? ==> projects == old(projects) && pledges == old(pledges)
      ensures response.Funded? ==>
        && pledges == old(pledges) + [Pledge(projectId, amount.value, ToJsString(phone))]
        && projects == Credit(old(projects), projectId, amount.value)
        && response.project == projects[projectId]
        && response.message == FundedMessage
        && response.transaction == ExpectedTransaction(gateway, old(projects)[projectId], amount.value, phone, uuidHead)
    {
      if !PhoneIsValid(phone) {
        return Refused(400, InvalidPhoneError);
      }
      if !amount.Finite? || amount.value <= 0.0 {
        return Refused(400, InvalidAmountError);
      }
      // BEGIN
      if FailsBeforeLookup(fault) {
        return Refused(500, TransactionFailedError);
      }
      if projectId !in projects {
        return Refused(404, ProjectNotFoundError);
      }
      var project := projects[projectId];
      assert project.id == projectId;
      response := PayAndRecord(project, amount.value, phone, gateway, uuidHead, fault);
    }
  }
}
