/** The verification stage a provider verifier sees, under any nesting of trust verifications. */
module TrustStage {

  datatype Stage = Direct | EmbeddedPreOfFinal

  /** How a verifier ends: by returning True, by returning anything else, or by raising. */
  datatype Answer = True | NotTrue | Raised

  /** `_VerificationStageInvocation` */
  class Invocation {
    const stage: Stage
    var active: bool

    constructor (stage: Stage)
      ensures this.stage == stage && active
    {
      this.stage := stage;
      active := true;
    }
  }

  /** `_current_verification_stage` for a marker read from the context variable. */
  function StageOf(marker: Invocation?): Stage
    reads marker
  {
    if marker == null || !marker.active then Direct else marker.stage
  }

  /** What a verifier does, as far as stages go: it looks at the current stage and goes on by what it finds, it has
      other evidence verified at a stage and goes on by how that verifier ended, or it ends. */
  datatype Script =
    | End(answer: Answer)
    | Look(ifDirect: Script, ifEmbedded: Script)
    | Nested(stage: Stage, verifier: Script, ifTrue: Script, ifNotTrue: Script, ifRaised: Script)

  function AfterNested(s: Script, a: Answer): (rest: Script)
    requires s.Nested?
    ensures rest < s
  {
    match a
    case True => s.ifTrue
    case NotTrue => s.ifNotTrue
    case Raised => s.ifRaised
  }

  function AfterLook(s: Script, stage: Stage): (rest: Script)
    requires s.Look?
    ensures rest < s
  {
    if stage.Direct? then s.ifDirect else s.ifEmbedded
  }

  /** How a verifier ends if every look of it finds the stage it was invoked at, and nested ones the stage of theirs. */
  function AnswerAt(s: Script, stage: Stage): Answer {
    match s
    case End(answer) => answer
    case Look(_, _) => AnswerAt(AfterLook(s, stage), stage)
    case Nested(inner, verifier, _, _, _) => AnswerAt(AfterNested(s, AnswerAt(verifier, inner)), stage)
  }

  /** One look: what it found, and the stage the looking verifier was invoked at. */
  datatype Sight = Sight(seen: Stage, invokedAt: Stage)

  /** The context variable. */
  class ContextVariable {
    var current: Invocation?

    constructor ()
      ensures current == null
    {
      current := null;
    }

    /** The invocation of one verifier in `_verify_evidence_trust`. `made` are the markers created on the way;
        a task started by the verifier may have kept any of them. */
    method Invoke(stage: Stage, verifier: Script)
      returns (answer: Answer, looks: seq<Sight>, ghost made: set<Invocation>)
      modifies this
      ensures current == old(current)
      ensures answer == AnswerAt(verifier, stage)
      ensures forall i | 0 <= i < |looks| :: looks[i].seen == looks[i].invokedAt
      ensures fresh(made) && forall m | m in made :: StageOf(m) == Direct
      decreases verifier, 1
    {
      var invocation := new Invocation(stage);
      var previous := current;
      current := invocation;
      answer, looks, made := Perform(verifier, stage);
      invocation.active := false;
      current := previous;
      made := made + {invocation};
    }

    /** What the verifier itself does while it was invoked at `stage`. */
    method Perform(s: Script, stage: Stage) returns (answer: Answer, looks: seq<Sight>, ghost made: set<Invocation>)
      requires current != null && current.active && current.stage == stage
      modifies this
      ensures current == old(current)
      ensures answer == AnswerAt(s, stage)
      ensures forall i | 0 <= i < |looks| :: looks[i].seen == looks[i].invokedAt
      ensures fresh(made) && forall m | m in made :: StageOf(m) == Direct
      decreases s, 0
    {
      var rest;
      match s {
        case End(end) =>
          return end, [], {};
        case Look(_, _) =>
          looks, made := [Sight(StageOf(current), stage)], {};
          rest := AfterLook(s, StageOf(current));
        case Nested(inner, verifier, _, _, _) =>
          // Whatever the inner verifier answers, also by raising, this one goes on.
          var innerAnswer;
          innerAnswer, looks, made := Invoke(inner, verifier);
          rest := AfterNested(s, innerAnswer);
      }
      var later;
      ghost var laterMade;
      answer, later, laterMade := Perform(rest, stage);
      looks := looks + later;
      made := made + laterMade;
    }
  }

  /** A verifier with its nested verifications cut out, going on as they ended. */
  function Alone(s: Script): (r: Script) {
    match s
    case End(_) => s
    case Look(ifDirect, ifEmbedded) => Look(Alone(ifDirect), Alone(ifEmbedded))
    case Nested(inner, verifier, _, _, _) => Alone(AfterNested(s, AnswerAt(verifier, inner)))
  }

  predicate NoNesting(s: Script) {
    match s
    case End(_) => true
    case Look(ifDirect, ifEmbedded) => NoNesting(ifDirect) && NoNesting(ifEmbedded)
    case Nested(_, _, _, _, _) => false
  }

  /** Only the innermost stage counts: cutting out every nested verification changes nothing at any stage. */
  lemma {:induction false} InnermostStage(s: Script, stage: Stage)
    ensures NoNesting(Alone(s)) && AnswerAt(Alone(s), stage) == AnswerAt(s, stage)
  {
    match s {
      case End(_) =>
      case Look(ifDirect, ifEmbedded) =>
        InnermostStage(ifDirect, stage);
        InnermostStage(ifEmbedded, stage);
      case Nested(inner, verifier, _, _, _) =>
        InnermostStage(AfterNested(s, AnswerAt(verifier, inner)), stage);
    }
  }
}
