/**
 * The lifecycle state machine: seven codes in a fixed forward chain, the rule
 * each state applies to its outgoing transition, the lookup from a stored code
 * to a state (unknown codes fall back to the initial state) and the one
 * operation that writes a patch event's state code.
 */
module State {
  import opened Wrappers
  import opened Models

  datatype StateCode =
    | DevEvidenceCaptured
    | DevVerified
    | StageCrReady
    | StagePatched
    | ProdCrReady
    | ProdPatched
    | Closed
  {
    /** The persisted string constant. */
    function Code(): string
    {
      match this
      case DevEvidenceCaptured => "DEV_EVIDENCE_CAPTURED"
      case DevVerified => "DEV_VERIFIED"
      case StageCrReady => "STAGE_CR_READY"
      case StagePatched => "STAGE_PATCHED"
      case ProdCrReady => "PROD_CR_READY"
      case ProdPatched => "PROD_PATCHED"
      case Closed => "CLOSED"
    }

    /** The position of the state in the promotion chain. */
    function Position(): (p: nat)
      ensures p < |Chain| && Chain[p] == this
    {
      match this
      case DevEvidenceCaptured => 0
      case DevVerified => 1
      case StageCrReady => 2
      case StagePatched => 3
      case ProdCrReady => 4
      case ProdPatched => 5
      case Closed => 6
    }
  }

  /** The promotion chain, first state first. */
  const Chain: seq<StateCode> :=
    [DevEvidenceCaptured, DevVerified, StageCrReady, StagePatched, ProdCrReady, ProdPatched, Closed]

  /** The state that follows `s` in the chain, if any. */
  function ChainSuccessor(s: StateCode): Option<StateCode>
  {
    if s.Position() + 1 < |Chain| then Some(Chain[s.Position() + 1]) else None
  }

  function OptionToSeq<T>(o: Option<T>): seq<T>
  {
    match o
    case None => []
    case Some(x) => [x]
  }

  /**
   * The states whose outgoing transition needs DEV evidence: those whose
   * successor lies from STAGE_CR_READY up to PROD_PATCHED.  The step into
   * CLOSED is not among them.
   */
  predicate EvidenceGuarded(s: StateCode)
  {
    DevVerified.Position() <= s.Position() <= ProdCrReady.Position()
  }

  /** `mapping.get(code)`: the state whose constant is exactly `code`. */
  function ParseStateCode(code: string): (r: Option<StateCode>)
    ensures r.Some? ==> r.value.Code() == code
  {
    if code == "DEV_EVIDENCE_CAPTURED" then Some(DevEvidenceCaptured)
    else if code == "DEV_VERIFIED" then Some(DevVerified)
    else if code == "STAGE_CR_READY" then Some(StageCrReady)
    else if code == "STAGE_PATCHED" then Some(StagePatched)
    else if code == "PROD_CR_READY" then Some(ProdCrReady)
    else if code == "PROD_PATCHED" then Some(ProdPatched)
    else if code == "CLOSED" then Some(Closed)
    else None
  }

  /** Every constant reads back as its own state. */
  lemma ParseCode(s: StateCode)
    ensures ParseStateCode(s.Code()) == Some(s)
  {
  }

  /**
   * The per-state `allowed_transitions` rule: at most one target, always the
   * chain successor, and none when the step is evidence-guarded and there is
   * no DEV evidence.
   */
  function AllowedTransitions(s: StateCode, devEvidenceAvailable: bool): (r: seq<StateCode>)
    ensures r == if EvidenceGuarded(s) && !devEvidenceAvailable then [] else OptionToSeq(ChainSuccessor(s))
  {
    match s
    case DevEvidenceCaptured => [DevVerified]
    case DevVerified => if !devEvidenceAvailable then [] else [StageCrReady]
    case StageCrReady => if !devEvidenceAvailable then [] else [StagePatched]
    case StagePatched => if !devEvidenceAvailable then [] else [ProdCrReady]
    case ProdCrReady => if !devEvidenceAvailable then [] else [ProdPatched]
    case ProdPatched => [Closed]
    case Closed => []
  }

  /** The codes of a list of states, in order. */
  function Codes(states: seq<StateCode>): (codes: seq<string>)
    ensures |codes| == |states|
    ensures forall i :: 0 <= i < |states| ==> codes[i] == states[i].Code()
  {
    if states == [] then [] else [states[0].Code()] + Codes(states[1..])
  }

  /** `can_transition_to`: the target code is one of the allowed codes. */
  function CanTransitionTo(s: StateCode, targetCode: string, devEvidenceAvailable: bool): (b: bool)
    ensures b <==> ParseStateCode(targetCode).Some?
                   && ParseStateCode(targetCode).value in AllowedTransitions(s, devEvidenceAvailable)
  {
    var allowed := AllowedTransitions(s, devEvidenceAvailable);
    assert forall t :: t in allowed ==> ParseStateCode(t.Code()) == Some(t);
    targetCode in Codes(allowed)
  }

  /**
   * `get_state_for_event`: the state named by the stored code; an empty or
   * unrecognised code falls back to DEV_EVIDENCE_CAPTURED.
   */
  function GetStateForEvent(storedCode: string): (s: StateCode)
    ensures ParseStateCode(storedCode) == Some(s)
            || (ParseStateCode(storedCode) == None && s == DevEvidenceCaptured)
  {
    var code := if storedCode == "" then DevEvidenceCaptured.Code() else storedCode;
    match ParseStateCode(code)
    case Some(state) => state
    case None => DevEvidenceCaptured
  }

  /** Why a transition was refused; `Message` is the text of the raised `ValueError`. */
  datatype TransitionError =
    | CannotClose
    | NotAllowed(fromCode: string, toCode: string)
  {
    function Message(): string
    {
      match this
      case CannotClose => "Cannot close patch event unless PROD is patched."
      case NotAllowed(fromCode, toCode) => "Transition from " + fromCode + " to " + toCode + " is not allowed."
    }
  }

  /**
   * The decision `transition_patch_event` takes: first the close rule on the
   * stored code, then the allowed set of the looked-up state.  The refusal
   * reports the looked-up state's code, not the stored string.
   */
  function TransitionCheck(storedCode: string, targetCode: string, devEvidenceAvailable: bool): Outcome<TransitionError>
  {
    var current := GetStateForEvent(storedCode);
    if targetCode == Closed.Code() && storedCode != ProdPatched.Code() then Fail(CannotClose)
    else if !CanTransitionTo(current, targetCode, devEvidenceAvailable) then Fail(NotAllowed(current.Code(), targetCode))
    else Pass
  }

  /**
   * `transition_patch_event`: the only writer of the state code.  On success the
   * code becomes the target; on refusal nothing changes.  (The `on_enter` hook
   * after a successful transition does nothing.)
   */
  method TransitionPatchEvent(event: PatchEvent, targetCode: string) returns (outcome: Outcome<TransitionError>)
    modifies event`currentStateCode
    ensures outcome == TransitionCheck(old(event.currentStateCode), targetCode, event.devEvidenceAvailable)
    ensures event.currentStateCode == if outcome.Pass? then targetCode else old(event.currentStateCode)
  {
    var current := GetStateForEvent(event.currentStateCode);
    if targetCode == Closed.Code() && event.currentStateCode != ProdPatched.Code() {
      return Fail(CannotClose);
    }
    if !CanTransitionTo(current, targetCode, event.devEvidenceAvailable) {
      return Fail(NotAllowed(current.Code(), targetCode));
    }
    event.currentStateCode := targetCode;
    return Pass;
  }

  // Properties of the transition table.

  /** From the initial state the only target is DEV_VERIFIED, with or without evidence. */
  lemma AllowedFromInitial(devEvidenceAvailable: bool)
    ensures AllowedTransitions(DevEvidenceCaptured, devEvidenceAvailable) == [DevVerified]
  {
  }

  /** The four guarded states allow nothing without evidence, and exactly their successor with it. */
  lemma GuardedStates(s: StateCode)
    requires s in {DevVerified, StageCrReady, StagePatched, ProdCrReady}
    ensures AllowedTransitions(s, false) == []
    ensures AllowedTransitions(s, true) == [Chain[s.Position() + 1]]
  {
  }

  /** PROD_PATCHED may close without any evidence check; CLOSED is terminal. */
  lemma CloseAndTerminal(devEvidenceAvailable: bool)
    ensures AllowedTransitions(ProdPatched, devEvidenceAvailable) == [Closed]
    ensures AllowedTransitions(Closed, devEvidenceAvailable) == []
  {
  }

  /** Every allowed set has at most one member, one position further along the chain. */
  lemma AllowedIsChainStep(s: StateCode, devEvidenceAvailable: bool)
    ensures |AllowedTransitions(s, devEvidenceAvailable)| <= 1
    ensures forall t :: t in AllowedTransitions(s, devEvidenceAvailable) ==> t.Position() == s.Position() + 1
  {
  }

  /** Without evidence no state may step into STAGE_CR_READY .. PROD_PATCHED. */
  lemma NoEvidenceBlocksStageAndProd(s: StateCode, t: StateCode)
    requires StageCrReady.Position() <= t.Position() <= ProdPatched.Position()
    ensures t !in AllowedTransitions(s, false)
  {
  }

  /** No allowed set contains CLOSED except that of PROD_PATCHED. */
  lemma OnlyProdPatchedAllowsClose(s: StateCode, devEvidenceAvailable: bool)
    ensures Closed in AllowedTransitions(s, devEvidenceAvailable) <==> s == ProdPatched
  {
  }

  // Properties of the transition operation.

  /**
   * The close rule is redundant: a transition passes exactly when the target is
   * in the allowed set of the looked-up state.
   */
  lemma TransitionPassesIffAllowed(storedCode: string, targetCode: string, devEvidenceAvailable: bool)
    ensures TransitionCheck(storedCode, targetCode, devEvidenceAvailable) == Pass
            <==> CanTransitionTo(GetStateForEvent(storedCode), targetCode, devEvidenceAvailable)
  {
    var current := GetStateForEvent(storedCode);
    if targetCode == Closed.Code() && storedCode != ProdPatched.Code() {
      assert current != ProdPatched;
      OnlyProdPatchedAllowsClose(current, devEvidenceAvailable);
    }
  }

  /** A passing transition moves exactly one step along the chain from the looked-up state. */
  lemma TransitionIsChainStep(storedCode: string, targetCode: string, devEvidenceAvailable: bool)
    requires TransitionCheck(storedCode, targetCode, devEvidenceAvailable) == Pass
    ensures ParseStateCode(targetCode).Some?
    ensures ParseStateCode(targetCode) == ChainSuccessor(GetStateForEvent(storedCode))
  {
  }

  /** A transition into STAGE_CR_READY up to PROD_PATCHED passes only with DEV evidence. */
  lemma PromotionNeedsEvidence(storedCode: string, targetCode: string, devEvidenceAvailable: bool)
    requires TransitionCheck(storedCode, targetCode, devEvidenceAvailable) == Pass
    requires ParseStateCode(targetCode).Some?
    requires StageCrReady.Position() <= ParseStateCode(targetCode).value.Position() <= ProdPatched.Position()
    ensures devEvidenceAvailable
  {
    if !devEvidenceAvailable {
      NoEvidenceBlocksStageAndProd(GetStateForEvent(storedCode), ParseStateCode(targetCode).value);
    }
  }

  /** Closing passes from a stored PROD_PATCHED, whatever the evidence flag, and from no other stored code. */
  lemma CloseOnlyFromProdPatched(storedCode: string, devEvidenceAvailable: bool)
    ensures TransitionCheck(storedCode, Closed.Code(), devEvidenceAvailable) == Pass
            <==> storedCode == ProdPatched.Code()
  {
    ParseCode(ProdPatched);
    ParseCode(Closed);
  }

  /** Apart from the close rule, a refusal from an unrecognised stored code names DEV_EVIDENCE_CAPTURED as the current state. */
  lemma RefusalReportsFallbackCode(storedCode: string, targetCode: string, devEvidenceAvailable: bool)
    requires ParseStateCode(storedCode) == None && targetCode != Closed.Code()
    requires TransitionCheck(storedCode, targetCode, devEvidenceAvailable).Fail?
    ensures TransitionCheck(storedCode, targetCode, devEvidenceAvailable).error.NotAllowed?
    ensures TransitionCheck(storedCode, targetCode, devEvidenceAvailable).error.fromCode == "DEV_EVIDENCE_CAPTURED"
  {
  }
}
