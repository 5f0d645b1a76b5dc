/**
 The serial protocol behind every single action: rebuild, authorise, rebuild, simulate,
 submit, wait for the receipt, refresh. It talks to a wallet and a chain that may fail,
 hang or switch account at every await, so the environment answers arbitrarily and every
 call, with its answer, is recorded on a trace. What the protocol guarantees is said about
 the traces it can produce.
 */
module ActionRuntime {
  import opened Wrappers
  import opened Sequences
  import opened Identities
  import opened Text

  datatype Authorization =
    | Erc20(token: Address, spender: Address, requiredAmount: nat, approvalAmount: nat, currentAllowance: nat,
      satisfied: bool)
    | Erc721(token: Address, spender: Address, tokenId: nat, satisfied: bool)

  /** What tells one authorization attempt from another: not the allowance seen, nor whether it suffices. */
  datatype AuthorizationKey =
    | Erc20Key(token: Address, spender: Address, requiredAmount: nat, approvalAmount: nat)
    | Erc721Key(token: Address, spender: Address, tokenId: nat)

  function KeyOf(a: Authorization): AuthorizationKey
  {
    match a
    case Erc20(token, spender, required, approval, _, _) => Erc20Key(token, spender, required, approval)
    case Erc721(token, spender, tokenId, _) => Erc721Key(token, spender, tokenId)
  }

  /** A frozen review: the call and its economics as the user saw them, and the authorizations listed with them. */
  datatype Review = Review(terms: string, authorizations: seq<Authorization>)

  /** What revalidation compares: the terms, and each authorization without the allowance it found. */
  datatype Material = Material(terms: string, keys: seq<AuthorizationKey>)

  function MaterialOf(review: Review): Material
  {
    Material(review.terms, Map(review.authorizations, (a: Authorization) => KeyOf(a)))
  }

  /** The same authorization, the allowance found aside: kind, token, spender and amounts or token id. */
  predicate SameAuthorization(a: Authorization, b: Authorization)
  {
    && a.Erc20? == b.Erc20? && a.token == b.token && a.spender == b.spender
    && (a.Erc20? ==> b.Erc20? && a.requiredAmount == b.requiredAmount && a.approvalAmount == b.approvalAmount)
    && (a.Erc721? ==> b.Erc721? && a.tokenId == b.tokenId)
  }

  /** The terms are the accepted ones, and the authorizations are the accepted ones, one for one. */
  predicate Unchanged(accepted: Review, rebuilt: Review)
  {
    && rebuilt.terms == accepted.terms
    && |rebuilt.authorizations| == |accepted.authorizations|
    && forall i :: 0 <= i < |rebuilt.authorizations| ==>
         SameAuthorization(accepted.authorizations[i], rebuilt.authorizations[i])
  }

  /** What revalidation compares is all there is to compare. */
  lemma MaterialIffUnchanged(accepted: Review, rebuilt: Review)
    ensures MaterialOf(accepted) == MaterialOf(rebuilt) <==> Unchanged(accepted, rebuilt)
  {
    var keys, others := MaterialOf(accepted).keys, MaterialOf(rebuilt).keys;
    if |keys| == |others| {
      forall i | 0 <= i < |keys|
        ensures keys[i] == others[i] <==> SameAuthorization(accepted.authorizations[i], rebuilt.authorizations[i])
      {
      }
    }
  }

  datatype Request = Request(payload: int)

  /** A built action; the authorizations it asks for are the ones its review lists. */
  datatype Action = Action(identity: Identity, review: Review, touchedResources: seq<string>)

  datatype Draft = Draft(action: Action, request: Request)

  datatype Plan = Plan(flowId: string, accepted: Draft)
  {
    function Owner(): Identity { accepted.action.identity }

    function ReviewedKeys(): seq<AuthorizationKey>
    {
      Map(accepted.action.review.authorizations, (a: Authorization) => KeyOf(a))
    }
  }

  datatype Rebuilt = Ready(draft: Draft) | Invalid(errors: seq<string>)

  datatype Ack = Ack

  datatype Receipt = Receipt(transactionHash: string, success: bool, blockNumber: nat)

  datatype Result =
    | Success(hash: string, receipt: Receipt, draft: Draft, identity: Identity)
    | RefreshFailed(hash: string, receipt: Receipt, draft: Draft, identity: Identity, refreshError: Failure)
    | NeedsReview(renewed: Draft)
    | InvalidAction(errors: seq<string>)
    | IdentityChanged
    | AuthorizationFailed
    | SimulationFailed(error: Failure)
    | UserRejected(error: Failure)
    | TransportFailed(error: Failure)
    | Reverted(hash: string, receipt: Receipt)
    | Pending  // the last call was never answered while the run was watched

  /** One call to the environment together with the answer it got. */
  datatype Call =
    | GetIdentity(current: Await<Option<Identity>>)
    | Connect(connected: Await<Identity>)
    | Rebuild(wallet: Identity, rebuilt: Await<Rebuilt>)
    | Authorize(authorization: Authorization, signer: Identity, approval: Await<Receipt>)
    | Simulate(draftRequest: Request, signer: Identity, simulated: Await<Request>)
    | Submit(signed: Request, hash: Await<string>)
    | WaitForReceipt(awaited: string, receipt: Await<Receipt>)
    | Refresh(resources: seq<string>, signer: Identity, evidence: Receipt, refreshed: Await<Ack>)

  /** Calls in order, the newest one outermost. */
  datatype Trace = Start | Then(before: Trace, call: Call)

  // ---------------------------------------------------------------------------
  // Reading a trace
  // ---------------------------------------------------------------------------

  function Submissions(t: Trace): nat
  {
    match t
    case Start => 0
    case Then(before, call) => Submissions(before) + if call.Submit? then 1 else 0
  }

  function AttemptedKeys(t: Trace): seq<AuthorizationKey>
  {
    match t
    case Start => []
    case Then(before, call) => AttemptedKeys(before) + if call.Authorize? then [KeyOf(call.authorization)] else []
  }

  function Length(t: Trace): nat
  {
    match t
    case Start => 0
    case Then(before, _) => 1 + Length(before)
  }

  /** The draft of the newest rebuild, when that rebuild was answered with one. */
  function LatestDraft(t: Trace): Option<Draft>
  {
    match t
    case Start => None
    case Then(before, Rebuild(_, Resolved(Ready(draft)))) => Some(draft)
    case Then(before, Rebuild(_, _)) => None
    case Then(before, _) => LatestDraft(before)
  }

  /** A rebuild has happened since the last authorization prompt. */
  predicate RebuiltSincePrompt(t: Trace)
  {
    match t
    case Start => false
    case Then(before, call) => call.Rebuild? || (!call.Authorize? && RebuiltSincePrompt(before))
  }

  /** The wallet was seen on the accepted identity by the very last call. */
  predicate JustConfirmedOwner(plan: Plan, t: Trace)
  {
    t.Then? && t.call.GetIdentity? && t.call.current.Resolved? && SameIdentity(plan.Owner(), t.call.current.value)
  }

  /** The last two calls were a rebuild and a look at the wallet that saw the accepted identity. */
  predicate JustRebuilt(plan: Plan, t: Trace)
  {
    JustConfirmedOwner(plan, t) && t.before.Then? && t.before.call.Rebuild?
  }

  /** A rebuilt draft the protocol may go on with: the right account, and nothing material changed. */
  predicate Acceptable(plan: Plan, d: Draft)
  {
    && SameIdentity(plan.Owner(), Some(d.action.identity))
    && Unchanged(plan.accepted.action.review, d.action.review)
  }

  /** The first authorization the list still lacks. */
  predicate FirstOpen(s: seq<Authorization>, a: Authorization)
  {
    !a.satisfied && exists i :: 0 <= i < |s| && s[i] == a && forall j :: 0 <= j < i ==> s[j].satisfied
  }

  predicate AllSatisfied(d: Draft)
  {
    forall a :: a in d.action.review.authorizations ==> a.satisfied
  }

  /** The wallet was asked because a prompt had just been refused. */
  predicate AfterRefusedPrompt(t: Trace)
  {
    t.Then? && t.call.GetIdentity? && t.before.Then? && t.before.call.Authorize? && t.before.call.approval.Rejected?
  }

  /** A prompt was refused, or granted on chain; either way the wallet is looked at again. */
  predicate Prompted(t: Trace)
  {
    && t.Then? && t.call.Authorize?
    && (t.call.approval.Rejected? || (t.call.approval.Resolved? && t.call.approval.value.success))
  }

  /** The newest answer lets the run go on. */
  predicate Open(plan: Plan, t: Trace)
  {
    t.Then? &&
    match t.call
    case GetIdentity(a) => a.Resolved? && SameIdentity(plan.Owner(), a.value) && !AfterRefusedPrompt(t)
    case Connect(a) => a.Resolved? && SameIdentity(plan.Owner(), Some(a.value))
    case Rebuild(_, a) => a.Resolved? && a.value.Ready? && Acceptable(plan, a.value.draft)
    case Authorize(_, _, _) => false
    case Simulate(_, _, a) => a.Resolved?
    case Submit(_, a) => a.Resolved?
    case WaitForReceipt(_, a) => a.Resolved? && a.value.success
    case Refresh(_, _, _, _) => false
  }

  /** Every answer that does not let the run go on is its last, a wallet to connect or a prompt aside. */
  predicate GoesOn(plan: Plan, before: Trace, call: Call)
  {
    || Open(plan, before)
    || (call.GetIdentity? && (before.Start? || Prompted(before)))
    || (call.Connect? && before == Then(Start, GetIdentity(Resolved(None))))
  }

  /** Calls the protocol may make after `before`; the rule each prompt and each write obeys. */
  predicate Allowed(plan: Plan, before: Trace, call: Call)
  {
    GoesOn(plan, before, call) &&
    var draft := LatestDraft(before);
    match call
    case GetIdentity(_) => Submissions(before) == 0
    case Connect(_) => Submissions(before) == 0 && before.Then? && before.call.GetIdentity?
    case Rebuild(who, _) => Submissions(before) == 0 && who == plan.Owner()
    case Authorize(a, signer, _) =>
      // prompted only on the accepted wallet, for the first open authorization of the newest draft, once per key
      && Submissions(before) == 0 && signer == plan.Owner()
      && RebuiltSincePrompt(before) && JustConfirmedOwner(plan, before)
      && draft.Some? && Acceptable(plan, draft.value)
      && FirstOpen(draft.value.action.review.authorizations, a)
      && KeyOf(a) !in AttemptedKeys(before)
    case Simulate(request, signer, _) =>
      && Submissions(before) == 0 && signer == plan.Owner() && RebuiltSincePrompt(before)
      && draft.Some? && Acceptable(plan, draft.value) && AllSatisfied(draft.value)
      && request == draft.value.request
    case Submit(signed, _) =>
      // exactly what the simulation returned, the wallet checked in between
      && Submissions(before) == 0
      && JustConfirmedOwner(plan, before)
      && before.before.Then? && before.before.call.Simulate?
      && before.before.call.simulated == Resolved(signed)
    case WaitForReceipt(hash, _) =>
      before.Then? && before.call.Submit? && before.call.hash == Resolved(hash)
    case Refresh(resources, signer, evidence, _) =>
      && signer == plan.Owner() && evidence.success
      && draft.Some? && resources == draft.value.action.touchedResources
      && before.Then? && before.call.WaitForReceipt? && before.call.receipt == Resolved(evidence)
  }

  predicate Disciplined(plan: Plan, t: Trace)
  {
    match t
    case Start => true
    case Then(before, call) => Disciplined(plan, before) && Allowed(plan, before, call)
  }

  predicate Unanswered(c: Call)
  {
    match c
    case GetIdentity(a) => a.Unsettled?
    case Connect(a) => a.Unsettled?
    case Rebuild(_, a) => a.Unsettled?
    case Authorize(_, _, a) => a.Unsettled?
    case Simulate(_, _, a) => a.Unsettled?
    case Submit(_, a) => a.Unsettled?
    case WaitForReceipt(_, a) => a.Unsettled?
    case Refresh(_, _, _, a) => a.Unsettled?
  }

  /** The newest call was rejected with this error, by something other than authorising or simulating. */
  predicate FailedWith(c: Call, e: Failure)
  {
    match c
    case GetIdentity(a) => a == Rejected(e)
    case Connect(a) => a == Rejected(e)
    case Rebuild(_, a) => a == Rejected(e)
    case Submit(_, a) => a == Rejected(e)
    case WaitForReceipt(_, a) => a == Rejected(e)
    case _ => false
  }

  /** A receipt for the one submission, awaited on its hash, is the newest or next to newest call. */
  predicate EndsInReceipt(t: Trace, hash: string, receipt: Receipt)
  {
    && t.Then? && t.call == WaitForReceipt(hash, Resolved(receipt))
    && t.before.Then? && t.before.call.Submit? && t.before.call.hash == Resolved(hash)
  }

  predicate EndsInRefresh(plan: Plan, t: Trace, hash: string, receipt: Receipt, d: Draft, identity: Identity,
                          answer: Await<Ack>)
  {
    && receipt.success && identity == plan.Owner() && LatestDraft(t) == Some(d)
    && t.Then? && t.call == Refresh(d.action.touchedResources, identity, receipt, answer)
    && EndsInReceipt(t.before, hash, receipt)
  }

  /**
   The prompt failed, its receipt failed, or it succeeded and the newest draft still lacks it.
   */
  ghost predicate AuthorizationRefused(plan: Plan, t: Trace)
    requires t.Then?
  {
    || (t.call.Authorize? && t.call.approval.Resolved? && !t.call.approval.value.success)
    || (JustConfirmedOwner(plan, t) && t.before.Then? && t.before.call.Authorize?
        && t.before.call.approval.Rejected? && !t.before.call.approval.error.byUser)
    || (JustRebuilt(plan, t) && LatestDraft(t).Some? && Acceptable(plan, LatestDraft(t).value) &&
        exists a :: FirstOpen(LatestDraft(t).value.action.review.authorizations, a) && KeyOf(a) in AttemptedKeys(t))
  }

  /** The newest call is one whose rejection can be the user's: connecting, signing, or the first look at the wallet. */
  predicate AsksUser(t: Trace)
    requires t.Then?
  {
    t.call.Connect? || t.call.Submit? || (t.call.GetIdentity? && t.before.Start?)
  }

  /** What each verdict says about the calls that were made. */
  ghost predicate Explains(plan: Plan, t: Trace, r: Result)
  {
    t.Then? &&
    match r
    case Success(hash, receipt, d, identity) => EndsInRefresh(plan, t, hash, receipt, d, identity, Resolved(Ack))
    case RefreshFailed(hash, receipt, d, identity, e) => EndsInRefresh(plan, t, hash, receipt, d, identity, Rejected(e))
    case NeedsReview(d) =>
      && Submissions(t) == 0 && t.call == Rebuild(plan.Owner(), Resolved(Ready(d)))
      && SameIdentity(plan.Owner(), Some(d.action.identity)) && !Unchanged(plan.accepted.action.review, d.action.review)
    case InvalidAction(errors) =>
      && Submissions(t) == 0
      && (t.call == Rebuild(plan.Owner(), Resolved(Invalid(errors))) ||
          (t.call.Rebuild? && t.call.rebuilt.Resolved? && t.call.rebuilt.value.Ready?
           && !SameIdentity(plan.Owner(), Some(t.call.rebuilt.value.draft.action.identity))
           && errors == ["action-snapshot-mismatch"]))
    case IdentityChanged =>
      && Submissions(t) == 0
      && ((t.call.GetIdentity? && t.call.current.Resolved? && !SameIdentity(plan.Owner(), t.call.current.value)) ||
          (t.call.Connect? && t.call.connected.Resolved? && !SameIdentity(plan.Owner(), Some(t.call.connected.value))))
    case AuthorizationFailed => Submissions(t) == 0 && AuthorizationRefused(plan, t)
    case SimulationFailed(e) => Submissions(t) == 0 && t.call.Simulate? && t.call.simulated == Rejected(e)
    case UserRejected(e) =>
      e.byUser && ((FailedWith(t.call, e) && AsksUser(t)) ||
                   (JustConfirmedOwner(plan, t) && Submissions(t) == 0
                    && t.before.Then? && t.before.call.Authorize? && t.before.call.approval == Rejected(e)))
    case TransportFailed(e) => FailedWith(t.call, e) && (AsksUser(t) ==> !e.byUser)
    case Reverted(hash, receipt) => !receipt.success && EndsInReceipt(t, hash, receipt)
    case Pending => Unanswered(t.call)
  }

  // ---------------------------------------------------------------------------
  // The environment
  // ---------------------------------------------------------------------------

  /** The injected runtime: answers as it pleases, or not at all. */
  class Runtime {
    const canConnect: bool
    var trace: Trace

    constructor (canConnect: bool)
      ensures this.canConnect == canConnect && trace == Start
    {
      this.canConnect := canConnect;
      trace := Start;
    }

    method AskIdentity() returns (a: Await<Option<Identity>>)
      modifies this
      ensures trace == Then(old(trace), GetIdentity(a))
    {
      a := *;
      trace := Then(trace, GetIdentity(a));
    }

    method AskConnect() returns (a: Await<Identity>)
      modifies this
      ensures trace == Then(old(trace), Connect(a))
    {
      a := *;
      trace := Then(trace, Connect(a));
    }

    method AskRebuild(identity: Identity) returns (a: Await<Rebuilt>)
      modifies this
      ensures trace == Then(old(trace), Rebuild(identity, a))
    {
      a := *;
      trace := Then(trace, Rebuild(identity, a));
    }

    method AskAuthorize(authorization: Authorization, identity: Identity) returns (a: Await<Receipt>)
      modifies this
      ensures trace == Then(old(trace), Authorize(authorization, identity, a))
    {
      a := *;
      trace := Then(trace, Authorize(authorization, identity, a));
    }

    method AskSimulate(request: Request, identity: Identity) returns (a: Await<Request>)
      modifies this
      ensures trace == Then(old(trace), Simulate(request, identity, a))
    {
      a := *;
      trace := Then(trace, Simulate(request, identity, a));
    }

    method AskSubmit(request: Request) returns (a: Await<string>)
      modifies this
      ensures trace == Then(old(trace), Submit(request, a))
    {
      a := *;
      trace := Then(trace, Submit(request, a));
    }

    method AskReceipt(hash: string) returns (a: Await<Receipt>)
      modifies this
      ensures trace == Then(old(trace), WaitForReceipt(hash, a))
    {
      a := *;
      trace := Then(trace, WaitForReceipt(hash, a));
    }

    method AskRefresh(resources: seq<string>, identity: Identity, receipt: Receipt) returns (a: Await<Ack>)
      modifies this
      ensures trace == Then(old(trace), Refresh(resources, identity, receipt, a))
    {
      a := *;
      trace := Then(trace, Refresh(resources, identity, receipt, a));
    }
  }

  // ---------------------------------------------------------------------------
  // The protocol
  // ---------------------------------------------------------------------------

  datatype Step<+T> = Go(value: T) | Stop(result: Result)

  /** Ask who the wallet is, connecting when nobody is. */
  method CurrentOrConnectedIdentity(plan: Plan, rt: Runtime) returns (r: Step<Option<Identity>>)
    requires rt.trace == Start
    modifies rt
    ensures Disciplined(plan, rt.trace) && Submissions(rt.trace) == 0 && AttemptedKeys(rt.trace) == []
    ensures 0 < Length(rt.trace) <= 2 && LatestDraft(rt.trace) == None
    ensures r.Stop? ==> Explains(plan, rt.trace, r.result)
    ensures r.Go? && !SameIdentity(plan.Owner(), r.value) ==> Explains(plan, rt.trace, IdentityChanged)
    ensures r.Go? && SameIdentity(plan.Owner(), r.value) ==> Open(plan, rt.trace)
  {
    var a := rt.AskIdentity();
    match a {
      case Unsettled => return Stop(Pending);
      case Rejected(e) => return Stop(if e.byUser then UserRejected(e) else TransportFailed(e));
      case Resolved(current) =>
        if current.Some? || !rt.canConnect { return Go(current); }
        var c := rt.AskConnect();
        match c {
          case Unsettled => return Stop(Pending);
          case Rejected(e) => return Stop(if e.byUser then UserRejected(e) else TransportFailed(e));
          case Resolved(identity) => return Go(Some(identity));
        }
    }
  }

  /** One rebuild for the accepted identity, accepted only if nothing material changed. */
  method RebuildAccepted(plan: Plan, rt: Runtime) returns (r: Step<Draft>)
    requires Disciplined(plan, rt.trace) && Submissions(rt.trace) == 0 && Open(plan, rt.trace)
    modifies rt
    ensures rt.trace.Then? && rt.trace.before == old(rt.trace) && rt.trace.call.Rebuild?
    ensures Length(rt.trace) == Length(old(rt.trace)) + 1 && Submissions(rt.trace) == 0
    ensures AttemptedKeys(rt.trace) == AttemptedKeys(old(rt.trace))
    ensures Disciplined(plan, rt.trace)
    ensures r.Stop? ==> Explains(plan, rt.trace, r.result)
    ensures r.Go? ==> LatestDraft(rt.trace) == Some(r.value) && Acceptable(plan, r.value)
  {
    var a := rt.AskRebuild(plan.Owner());
    match a {
      case Unsettled => return Stop(Pending);
      case Rejected(e) => return Stop(TransportFailed(e));
      case Resolved(Invalid(errors)) => return Stop(InvalidAction(errors));
      case Resolved(Ready(draft)) =>
        if !SameIdentity(plan.Owner(), Some(draft.action.identity)) {
          return Stop(InvalidAction(["action-snapshot-mismatch"]));
        }
        MaterialIffUnchanged(plan.accepted.action.review, draft.action.review);
        if MaterialOf(plan.accepted.action.review) != MaterialOf(draft.action.review) {
          return Stop(NeedsReview(draft));
        }
        return Go(draft);
    }
  }

  /** The wallet is still the accepted one, or the run ends. */
  method CheckIdentity(plan: Plan, rt: Runtime) returns (stop: Option<Result>)
    requires Disciplined(plan, rt.trace) && Submissions(rt.trace) == 0
    requires Open(plan, rt.trace) || Prompted(rt.trace)
    modifies rt
    ensures rt.trace.Then? && rt.trace.before == old(rt.trace) && rt.trace.call.GetIdentity?
    ensures Length(rt.trace) == Length(old(rt.trace)) + 1 && Submissions(rt.trace) == 0
    ensures AttemptedKeys(rt.trace) == AttemptedKeys(old(rt.trace))
      && LatestDraft(rt.trace) == LatestDraft(old(rt.trace))
    ensures RebuiltSincePrompt(rt.trace) == RebuiltSincePrompt(old(rt.trace))
    ensures Disciplined(plan, rt.trace)
    ensures stop.Some? ==> Explains(plan, rt.trace, stop.value)
    ensures stop.None? ==> JustConfirmedOwner(plan, rt.trace) && (Open(plan, rt.trace) || AfterRefusedPrompt(rt.trace))
  {
    var a := rt.AskIdentity();
    match a {
      case Unsettled => return Some(Pending);
      case Rejected(e) => return Some(TransportFailed(e));
      case Resolved(current) =>
        return if SameIdentity(plan.Owner(), current) then None else Some(IdentityChanged);
    }
  }

  function FirstUnsatisfied(s: seq<Authorization>): (r: Option<Authorization>)
    ensures r.Some? ==> FirstOpen(s, r.value)
    ensures r.None? ==> forall a :: a in s ==> a.satisfied
  {
    if s == [] then None
    else if !s[0].satisfied then Some(s[0])
    else
      var r := FirstUnsatisfied(s[1..]);
      assert r.Some? ==> FirstOpen(s, r.value) by {
        if r.Some? {
          var i :| 0 <= i < |s[1..]| && s[1..][i] == r.value && forall j :: 0 <= j < i ==> s[1..][j].satisfied;
          assert s[i + 1] == r.value;
          assert forall j :: 0 < j < i + 1 ==> s[j] == s[1..][j - 1];
        }
      }
      r
  }

  /** One authorization prompt, checked before and after. */
  method AuthorizeOne(plan: Plan, rt: Runtime, authorization: Authorization) returns (stop: Option<Result>)
    requires Disciplined(plan, rt.trace) && Submissions(rt.trace) == 0
    requires LatestDraft(rt.trace).Some? && Acceptable(plan, LatestDraft(rt.trace).value)
    requires RebuiltSincePrompt(rt.trace) && Open(plan, rt.trace)
    requires FirstOpen(LatestDraft(rt.trace).value.action.review.authorizations, authorization)
    requires KeyOf(authorization) !in AttemptedKeys(rt.trace)
    modifies rt
    ensures Disciplined(plan, rt.trace) && Submissions(rt.trace) == 0
    ensures stop.Some? ==> Explains(plan, rt.trace, stop.value)
    ensures stop.None? ==> Open(plan, rt.trace)
    ensures stop.None? ==> AttemptedKeys(rt.trace) == AttemptedKeys(old(rt.trace)) + [KeyOf(authorization)]
    ensures Length(rt.trace) <= Length(old(rt.trace)) + 3
    ensures |AttemptedKeys(rt.trace)| == |AttemptedKeys(old(rt.trace))| ==>
      Length(rt.trace) <= Length(old(rt.trace)) + 1
    ensures |AttemptedKeys(old(rt.trace))| <= |AttemptedKeys(rt.trace)| <= |AttemptedKeys(old(rt.trace))| + 1
  {
    var before := CheckIdentity(plan, rt);
    if before.Some? { return before; }
    var a := rt.AskAuthorize(authorization, plan.Owner());
    match a {
      case Unsettled => return Some(Pending);
      case Rejected(e) =>
        var after := CheckIdentity(plan, rt);
        if after.Some? { return after; }
        return Some(if e.byUser then UserRejected(e) else AuthorizationFailed);
      case Resolved(receipt) =>
        if !receipt.success { return Some(AuthorizationFailed); }
        var after := CheckIdentity(plan, rt);
        return after;
    }
  }

  /** One round of the loop: prompt, rebuild, and look at the wallet once more. */
  method AuthorizeAndRebuild(plan: Plan, rt: Runtime, authorization: Authorization) returns (r: Step<Draft>)
    requires Disciplined(plan, rt.trace) && Submissions(rt.trace) == 0
    requires LatestDraft(rt.trace).Some? && Acceptable(plan, LatestDraft(rt.trace).value)
    requires RebuiltSincePrompt(rt.trace) && Open(plan, rt.trace)
    requires FirstOpen(LatestDraft(rt.trace).value.action.review.authorizations, authorization)
    requires KeyOf(authorization) !in AttemptedKeys(rt.trace)
    modifies rt
    ensures Disciplined(plan, rt.trace) && Submissions(rt.trace) == 0
    ensures r.Stop? ==> Explains(plan, rt.trace, r.result)
    ensures r.Go? ==> LatestDraft(rt.trace) == Some(r.value) && Acceptable(plan, r.value) && Open(plan, rt.trace)
    ensures r.Go? ==> RebuiltSincePrompt(rt.trace) && JustRebuilt(plan, rt.trace)
    ensures r.Go? ==> AttemptedKeys(rt.trace) == AttemptedKeys(old(rt.trace)) + [KeyOf(authorization)]
    ensures Length(rt.trace) <= Length(old(rt.trace)) + 5
    ensures |AttemptedKeys(rt.trace)| == |AttemptedKeys(old(rt.trace))| ==>
      Length(rt.trace) <= Length(old(rt.trace)) + 1
    ensures |AttemptedKeys(old(rt.trace))| <= |AttemptedKeys(rt.trace)| <= |AttemptedKeys(old(rt.trace))| + 1
  {
    var stop := AuthorizeOne(plan, rt, authorization);
    if stop.Some? { return Stop(stop.value); }
    r := RebuildAccepted(plan, rt);
    if r.Stop? { return; }
    stop := CheckIdentity(plan, rt);
    if stop.Some? { return Stop(stop.value); }
  }

  /** The whole run, over every behaviour of the environment. */
  method RunActionExecution(plan: Plan, rt: Runtime) returns (r: Result)
    requires rt.trace == Start
    modifies rt
    ensures Disciplined(plan, rt.trace)
    ensures Explains(plan, rt.trace, r)
    ensures Length(rt.trace) <= 8 + 5 * |AttemptedKeys(rt.trace)|
  {
    var who := CurrentOrConnectedIdentity(plan, rt);
    if who.Stop? { return who.result; }
    if !SameIdentity(plan.Owner(), who.value) { return IdentityChanged; }

    var rebuilt := RebuildAccepted(plan, rt);
    if rebuilt.Stop? { return rebuilt.result; }
    var draft := rebuilt.value;

    var attempted: seq<AuthorizationKey> := [];
    while true
      invariant Disciplined(plan, rt.trace) && Submissions(rt.trace) == 0
      invariant LatestDraft(rt.trace) == Some(draft) && Acceptable(plan, draft) && RebuiltSincePrompt(rt.trace)
      invariant attempted == AttemptedKeys(rt.trace) && Open(plan, rt.trace)
      invariant attempted != [] ==> JustRebuilt(plan, rt.trace)
      invariant Length(rt.trace) <= 3 + 5 * |attempted|
      decreases |plan.ReviewedKeys()| - |attempted|
    {
      var open := FirstUnsatisfied(draft.action.review.authorizations);
      if open.None? { break; }
      var key := KeyOf(open.value);
      if key in attempted {
        assert rt.trace.Then? && FirstOpen(LatestDraft(rt.trace).value.action.review.authorizations, open.value);
        return AuthorizationFailed;
      }
      AttemptsWithinReview(plan, rt.trace);
      OpenKeyIsReviewed(plan, draft, open.value);
      RoomForOneMore(attempted, plan.ReviewedKeys(), key);
      attempted := attempted + [key];
      rebuilt := AuthorizeAndRebuild(plan, rt, open.value);
      if rebuilt.Stop? { return rebuilt.result; }
      draft := rebuilt.value;
    }
    r := SimulateAndSubmit(plan, rt, draft);
  }

  /** The tail of the run: from the final draft to the refreshed result. */
  method SimulateAndSubmit(plan: Plan, rt: Runtime, draft: Draft) returns (r: Result)
    requires Disciplined(plan, rt.trace) && Submissions(rt.trace) == 0
    requires LatestDraft(rt.trace) == Some(draft) && Acceptable(plan, draft) && AllSatisfied(draft)
    requires RebuiltSincePrompt(rt.trace) && Open(plan, rt.trace)
    modifies rt
    ensures Disciplined(plan, rt.trace)
    ensures Explains(plan, rt.trace, r)
    ensures Length(rt.trace) <= Length(old(rt.trace)) + 5
    ensures AttemptedKeys(rt.trace) == AttemptedKeys(old(rt.trace))
  {
    var simulated := rt.AskSimulate(draft.request, plan.Owner());
    match simulated {
      case Unsettled => return Pending;
      case Rejected(e) => return SimulationFailed(e);
      case Resolved(request) =>
        var stop := CheckIdentity(plan, rt);
        if stop.Some? { return stop.value; }
        var hash := rt.AskSubmit(request);
        match hash {
          case Unsettled => return Pending;
          case Rejected(e) => return if e.byUser then UserRejected(e) else TransportFailed(e);
          case Resolved(h) => r := Confirm(plan, rt, draft, h);
        }
    }
  }

  method Confirm(plan: Plan, rt: Runtime, draft: Draft, hash: string) returns (r: Result)
    requires Disciplined(plan, rt.trace) && LatestDraft(rt.trace) == Some(draft)
    requires rt.trace.Then? && rt.trace.call.Submit? && rt.trace.call.hash == Resolved(hash)
    modifies rt
    ensures Disciplined(plan, rt.trace)
    ensures Explains(plan, rt.trace, r)
    ensures Length(rt.trace) <= Length(old(rt.trace)) + 2
    ensures AttemptedKeys(rt.trace) == AttemptedKeys(old(rt.trace))
  {
    var receipt := rt.AskReceipt(hash);
    match receipt {
      case Unsettled => return Pending;
      case Rejected(e) => return TransportFailed(e);
      case Resolved(mined) =>
        if !mined.success { return Reverted(hash, mined); }
        var refreshed := rt.AskRefresh(draft.action.touchedResources, plan.Owner(), mined);
        match refreshed {
          case Unsettled => return Pending;
          case Rejected(e) => return RefreshFailed(hash, mined, draft, plan.Owner(), e);
          case Resolved(ack) =>
            assert ack == Ack;
            return Success(hash, mined, draft, plan.Owner());
        }
    }
  }

  /** The refresh may be retried on its own: it never prompts, and it keeps the evidence it was given. */
  method RetryCriticalRefresh(previous: Result, rt: Runtime) returns (r: Result)
    requires previous.RefreshFailed? && rt.trace == Start
    modifies rt
    ensures r.Success? || r.RefreshFailed? || r.IdentityChanged? || r.Pending?
    ensures r.Success? || r.RefreshFailed? ==>
      r.hash == previous.hash && r.receipt == previous.receipt && r.draft == previous.draft
        && r.identity == previous.identity
    ensures RetryTrace(previous, rt.trace, r)
  {
    var a := rt.AskIdentity();
    match a {
      case Unsettled => return Pending;
      case Rejected(e) => return previous.(refreshError := e);
      case Resolved(current) =>
        if !SameIdentity(previous.identity, current) { return IdentityChanged; }
        var refreshed := rt.AskRefresh(previous.draft.action.touchedResources, previous.identity, previous.receipt);
        match refreshed {
          case Unsettled => return Pending;
          case Rejected(e) => return previous.(refreshError := e);
          case Resolved(_) => return Success(previous.hash, previous.receipt, previous.draft, previous.identity);
        }
    }
  }

  /** A retry asks for the identity and, only on the recorded one, refreshes the recorded resources. */
  predicate RetryTrace(previous: Result, t: Trace, r: Result)
    requires previous.RefreshFailed?
  {
    match t
    case Then(Start, GetIdentity(a)) =>
      (r.RefreshFailed? && a.Rejected?) || (r.Pending? && a.Unsettled?)
      || (r.IdentityChanged? && a.Resolved? && !SameIdentity(previous.identity, a.value))
    case Then(Then(Start, GetIdentity(Resolved(current))), Refresh(resources, signer, evidence, a)) =>
      && SameIdentity(previous.identity, current) && signer == previous.identity
      && resources == previous.draft.action.touchedResources && evidence == previous.receipt
      && (r.Success? <==> a.Resolved?) && (r.RefreshFailed? <==> a.Rejected?)
    case _ => false
  }

  // ---------------------------------------------------------------------------
  // What every disciplined trace guarantees
  // ---------------------------------------------------------------------------

  /** `whole` continues `t`. */
  predicate Extends(whole: Trace, t: Trace)
  {
    whole == t || (whole.Then? && Extends(whole.before, t))
  }

  lemma DisciplinedPrefix(plan: Plan, whole: Trace, t: Trace)
    requires Disciplined(plan, whole) && Extends(whole, t)
    ensures Disciplined(plan, t)
  {
    if whole != t {
      DisciplinedPrefix(plan, whole.before, t);
    }
  }

  /** A run writes at most once, and nothing but the receipt and the refresh follows the write. */
  lemma {:induction false} SubmitsAtMostOnce(plan: Plan, t: Trace)
    requires Disciplined(plan, t)
    ensures Submissions(t) <= 1
    ensures t.Then? && Submissions(t.before) == 1 ==> t.call.WaitForReceipt? || t.call.Refresh?
  {
    if t.Then? {
      SubmitsAtMostOnce(plan, t.before);
    }
  }

  /** Until the write, the newest draft behind a simulation is still the newest draft. */
  lemma SimulatedDraft(plan: Plan, t: Trace)
    requires Disciplined(plan, t) && t.Then? && t.call.Simulate?
    ensures LatestDraft(t).Some? && Acceptable(plan, LatestDraft(t).value) && AllSatisfied(LatestDraft(t).value)
    ensures t.call.draftRequest == LatestDraft(t).value.request
  {
  }

  /** The wallet answered with the chain and, letter case aside, the account the plan was accepted on. */
  predicate SawOwner(plan: Plan, call: Call)
  {
    && call.GetIdentity? && call.current.Resolved? && call.current.value.Some?
    && call.current.value.value.chainId == plan.Owner().chainId
    && Lower(call.current.value.value.account) == Lower(plan.Owner().account)
  }

  /**
   Every write, at any point of any run, follows directly on an identity check that saw the
   accepted wallet, and signs exactly what the simulation just before returned for the request
   of the newest rebuilt draft: its terms and authorizations those of the accepted review, one
   for one, and fully authorised.
   */
  lemma SubmitIsReviewed(plan: Plan, whole: Trace, t: Trace)
    requires Disciplined(plan, whole) && Extends(whole, t) && t.Then? && t.call.Submit?
    ensures JustConfirmedOwner(plan, t.before) && SawOwner(plan, t.before.call)
    ensures var sim := t.before.before;
            && sim.Then? && sim.call.Simulate? && sim.call.simulated == Resolved(t.call.signed)
            && LatestDraft(t).Some? && sim.call.draftRequest == LatestDraft(t).value.request
            && Unchanged(plan.accepted.action.review, LatestDraft(t).value.action.review)
            && SameIdentity(plan.Owner(), Some(LatestDraft(t).value.action.identity))
            && AllSatisfied(LatestDraft(t).value)
  {
    DisciplinedPrefix(plan, whole, t);
    SimulatedDraft(plan, t.before.before);
    assert LatestDraft(t) == LatestDraft(t.before) == LatestDraft(t.before.before);
  }

  /** A draft that revalidates asks for exactly the authorizations the accepted review listed. */
  lemma OpenKeyIsReviewed(plan: Plan, d: Draft, a: Authorization)
    requires Acceptable(plan, d) && a in d.action.review.authorizations
    ensures KeyOf(a) in plan.ReviewedKeys()
  {
    var i :| 0 <= i < |d.action.review.authorizations| && d.action.review.authorizations[i] == a;
    assert SameAuthorization(plan.accepted.action.review.authorizations[i], a);
    assert plan.ReviewedKeys()[i] == KeyOf(a);
  }

  /**
   Every authorization prompt follows directly on such a check, asks for something the newest
   draft lacks, and is for an authorization the user saw in the accepted review.
   */
  lemma AuthorizeIsReviewed(plan: Plan, whole: Trace, t: Trace)
    requires Disciplined(plan, whole) && Extends(whole, t) && t.Then? && t.call.Authorize?
    ensures JustConfirmedOwner(plan, t.before) && SawOwner(plan, t.before.call)
    ensures LatestDraft(t.before).Some?
    ensures Unchanged(plan.accepted.action.review, LatestDraft(t.before).value.action.review)
    ensures FirstOpen(LatestDraft(t.before).value.action.review.authorizations, t.call.authorization)
    ensures exists a :: a in plan.accepted.action.review.authorizations && SameAuthorization(a, t.call.authorization)
  {
    DisciplinedPrefix(plan, whole, t);
    var asked := LatestDraft(t.before).value.action.review.authorizations;
    var i :| 0 <= i < |asked| && asked[i] == t.call.authorization;
    assert SameAuthorization(plan.accepted.action.review.authorizations[i], t.call.authorization);
  }

  lemma ExtendsFurther(whole: Trace, t: Trace) returns (next: Trace)
    requires Extends(whole, t) && whole != t
    ensures Extends(whole, next) && next.Then? && next.before == t
  {
    if whole.before == t {
      next := whole;
    } else {
      next := ExtendsFurther(whole.before, t);
    }
  }

  /** A rebuild whose terms or authorizations differ is the last call of its run, and is handed back for review. */
  lemma ChangedRebuildEnds(plan: Plan, whole: Trace, t: Trace, d: Draft, r: Result)
    requires Disciplined(plan, whole) && Extends(whole, t) && Explains(plan, whole, r)
    requires t.Then? && t.call.Rebuild? && t.call.rebuilt == Resolved(Ready(d))
    requires SameIdentity(plan.Owner(), Some(d.action.identity))
    requires !Unchanged(plan.accepted.action.review, d.action.review)
    ensures whole == t && r == NeedsReview(d)
  {
    if whole != t {
      var next := ExtendsFurther(whole, t);
      DisciplinedPrefix(plan, whole, next);
    }
  }

  /** The calls and their answers leave no choice of verdict. */
  lemma VerdictIsDetermined(plan: Plan, t: Trace, r: Result, s: Result)
    requires Disciplined(plan, t) && Explains(plan, t, r) && Explains(plan, t, s)
    ensures r == s
  {
  }

  lemma {:induction false} AttemptsDistinct(plan: Plan, t: Trace)
    requires Disciplined(plan, t)
    ensures Distinct(AttemptedKeys(t))
  {
    if t.Then? {
      AttemptsDistinct(plan, t.before);
    }
  }

  /** No key is attempted twice, so keys drawn from a finite pool bound the whole run. */
  lemma AttemptsBounded(plan: Plan, t: Trace, pool: set<AuthorizationKey>)
    requires Disciplined(plan, t) && forall k :: k in AttemptedKeys(t) ==> k in pool
    ensures |AttemptedKeys(t)| <= |pool|
  {
    AttemptsDistinct(plan, t);
    DistinctFits(AttemptedKeys(t), pool);
  }

  lemma {:induction false} AttemptsAreReviewed(plan: Plan, t: Trace)
    requires Disciplined(plan, t)
    ensures forall k :: k in AttemptedKeys(t) ==> k in plan.ReviewedKeys()
  {
    if t.Then? {
      AttemptsAreReviewed(plan, t.before);
      if t.call.Authorize? {
        OpenKeyIsReviewed(plan, LatestDraft(t.before).value, t.call.authorization);
      }
    }
  }

  /** No run, however the environment answers, prompts more often than the accepted review lists authorizations. */
  lemma AttemptsWithinReview(plan: Plan, t: Trace)
    requires Disciplined(plan, t)
    ensures |AttemptedKeys(t)| <= |plan.accepted.action.review.authorizations|
    ensures Distinct(AttemptedKeys(t)) && forall k :: k in AttemptedKeys(t) ==> k in plan.ReviewedKeys()
  {
    AttemptsAreReviewed(plan, t);
    AttemptsDistinct(plan, t);
    DistinctWithin(AttemptedKeys(t), plan.ReviewedKeys());
  }

  /** A run that ends before the write, by its verdict, made no write. */
  lemma VerdictTellsSubmission(plan: Plan, t: Trace, r: Result)
    requires Disciplined(plan, t) && Explains(plan, t, r)
    ensures r.NeedsReview? || r.InvalidAction? || r.IdentityChanged? || r.AuthorizationFailed? || r.SimulationFailed?
            ==> Submissions(t) == 0
    ensures r.Success? || r.RefreshFailed? || r.Reverted? ==> Submissions(t) == 1
    ensures r.Success? || r.RefreshFailed? ==>
      exists submit: Trace :: Extends(t, submit) && submit.Then? && submit.call.Submit?
        && submit.call.hash == Resolved(r.hash)
                           && r.receipt.success
  {
    SubmitsAtMostOnce(plan, t);
    if r.Success? || r.RefreshFailed? {
      var submit := t.before.before;
      assert Extends(t, submit);
      assert Submissions(submit) >= 1;
      SubmitsAtMostOnce(plan, submit);
      assert Submissions(t) == Submissions(t.before) == Submissions(submit);
    } else if r.Reverted? {
      assert Submissions(t) == Submissions(t.before) >= 1;
    }
  }
}
