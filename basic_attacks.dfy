/**
 The basic-attack action family: its definition records, the registry
 partition that holds them, the map of constructors built from that
 registry, and the lifecycle of one BasicAttack action.
 */
module BasicAttacks {

  /** status.Kind: the kind of damage; this model does not interpret it. */
  type Kind = string

  /** One basic-attack variant as loaded from its JSON file. */
  datatype BasicAttackDef = BasicAttackDef(
    name: string,
    kind: Kind,
    ap: int,
    strength: int,
    range: int)

  /** An action bound to a variant: its name and the definition resolved for it. */
  datatype BasicAttack = BasicAttack(defname: string, def: BasicAttackDef)

  datatype ActionError = DefinitionNotFound(name: string)

  datatype Result<T> = Ok(value: T) | Err(error: ActionError)

  /** The constructor closure stored in the makers map, with the name it captured. */
  datatype Maker = Maker(defname: string)

  /**
   Calling a constructor: an action with the captured name, whose definition
   is looked up in the registry as it is at the time of the call.
   */
  function Construct(m: Maker, store: map<string, BasicAttackDef>): (r: Result<BasicAttack>)
    ensures r.Ok? <==> m.defname in store
    ensures r.Ok? ==> r.value.defname == m.defname && r.value.def == store[m.defname]
    ensures r.Err? ==> r.error == DefinitionNotFound(m.defname)
  {
    if m.defname in store then Ok(BasicAttack(m.defname, store[m.defname]))
    else Err(DefinitionNotFound(m.defname))
  }

  /**
   The loop over the registry's names: one constructor per name, each
   capturing its own name rather than the loop variable.
   */
  method BuildMakers(attackActions: map<string, BasicAttackDef>) returns (makers: map<string, Maker>)
    ensures makers.Keys == attackActions.Keys
    ensures forall n :: n in makers ==> makers[n] == Maker(n)
  {
    makers := map[];
    var pending := attackActions.Keys;
    while pending != {}
      invariant pending <= attackActions.Keys
      invariant makers.Keys == attackActions.Keys - pending
      invariant forall n :: n in makers ==> makers[n] == Maker(n)
      decreases pending
    {
      var name :| name in pending;
      var cname := name;
      makers := makers[cname := Maker(cname)];
      pending := pending - {name};
    }
  }

  /** Makers built from a registry resolve, under that registry, to their own entries. */
  lemma MakersBindOwnDefinition(store: map<string, BasicAttackDef>, makers: map<string, Maker>)
    requires makers.Keys == store.Keys
    requires forall n :: n in makers ==> makers[n] == Maker(n)
    ensures forall n :: n in makers ==> Construct(makers[n], store) == Ok(BasicAttack(n, store[n]))
    ensures forall n, m :: n in makers && m in makers && n != m ==>
      Construct(makers[n], store).value.defname != Construct(makers[m], store).value.defname
  {
  }

  /**
   Constructors built for an earlier registry, called after the partition
   was registered again, bind to the entries of the current registry: a
   name still registered gets its new definition, a dropped one fails.
   */
  lemma StaleMakerUsesCurrentStore(old_store: map<string, BasicAttackDef>,
                                   new_store: map<string, BasicAttackDef>,
                                   makers: map<string, Maker>)
    requires makers.Keys == old_store.Keys
    requires forall n :: n in makers ==> makers[n] == Maker(n)
    ensures forall n :: n in makers ==>
      Construct(makers[n], new_store) ==
        if n in new_store then Ok(BasicAttack(n, new_store[n])) else Err(DefinitionNotFound(n))
  {
  }

  /** The registry partition "actions-attack_actions" of the object store. */
  class AttackStore {
    var attackActions: map<string, BasicAttackDef>

    constructor ()
      ensures attackActions == map[]
    {
      attackActions := map[];
    }

    /**
     registerAttacks: drop the old partition, register a fresh empty one,
     load every definition (the loaded records are given), then build the
     makers map from the partition's names.
     */
    method RegisterAttacks(loaded: map<string, BasicAttackDef>) returns (makers: map<string, Maker>)
      modifies this
      ensures attackActions == loaded
      ensures makers.Keys == attackActions.Keys
      ensures forall n :: n in makers ==> Construct(makers[n], attackActions) == Ok(BasicAttack(n, loaded[n]))
    {
      attackActions := map[];
      attackActions := attackActions + loaded;
      makers := BuildMakers(attackActions);
      MakersBindOwnDefinition(attackActions, makers);
    }
  }

  // The lifecycle methods of BasicAttack. None of them changes the action;
  // HandleOutput and Cancel return the action as it is after the call.

  datatype MaintenanceStatus = InProgress | Complete

  /** *game.Entity, which a basic attack never inspects. */
  datatype Entity = Entity(id: nat)

  function Readyable(a: BasicAttack): bool { true }

  function Cost(a: BasicAttack): int { a.def.ap }

  function Prep(a: BasicAttack, actor: Entity): bool { true }

  function HandleInput(a: BasicAttack): bool { true }

  function HandleOutput(a: BasicAttack): BasicAttack { a }

  function Cancel(a: BasicAttack): BasicAttack { a }

  function Maintain(a: BasicAttack, dt: int): MaintenanceStatus { Complete }

  function Interrupt(a: BasicAttack): bool { true }

  /** One call of a lifecycle method, with its argument. */
  datatype Op =
    | ReadyableOp
    | CostOp
    | PrepOp(actor: Entity)
    | HandleInputOp
    | HandleOutputOp
    | CancelOp
    | MaintainOp(dt: int)
    | InterruptOp

  /** What a call returned. */
  datatype Answer = Flag(b: bool) | Points(n: int) | Status(s: MaintenanceStatus) | Nothing

  datatype Step = Step(action: BasicAttack, answer: Answer)

  function Call(a: BasicAttack, op: Op): Step
  {
    match op
    case ReadyableOp => Step(a, Flag(Readyable(a)))
    case CostOp => Step(a, Points(Cost(a)))
    case PrepOp(actor) => Step(a, Flag(Prep(a, actor)))
    case HandleInputOp => Step(a, Flag(HandleInput(a)))
    case HandleOutputOp => Step(HandleOutput(a), Nothing)
    case CancelOp => Step(Cancel(a), Nothing)
    case MaintainOp(dt) => Step(a, Status(Maintain(a, dt)))
    case InterruptOp => Step(a, Flag(Interrupt(a)))
  }

  datatype Trace = Trace(action: BasicAttack, answers: seq<Answer>)

  /** Calls the given methods in order on one action. */
  function Run(a: BasicAttack, ops: seq<Op>): Trace
    decreases |ops|
  {
    if ops == [] then Trace(a, [])
    else
      var s := Call(a, ops[0]);
      var t := Run(s.action, ops[1..]);
      Trace(t.action, [s.answer] + t.answers)
  }

  /**
   Whatever methods are called, in whatever order and however often, the
   action keeps its name and definition, Cost is always the definition's Ap,
   Readyable, Prep, HandleInput and Interrupt always answer true, and
   Maintain always answers Complete.
   */
  lemma {:induction false} RunIsStateless(a: BasicAttack, ops: seq<Op>)
    ensures Run(a, ops).action == a
    ensures |Run(a, ops).answers| == |ops|
    ensures forall i :: 0 <= i < |ops| ==>
      var x := Run(a, ops).answers[i];
      match ops[i]
      case CostOp => x == Points(a.def.ap)
      case MaintainOp(_) => x == Status(Complete)
      case HandleOutputOp => x == Nothing
      case CancelOp => x == Nothing
      case _ => x == Flag(true)
    decreases |ops|
  {
    if ops != [] {
      RunIsStateless(a, ops[1..]);
      var t := Run(a, ops[1..]);
      assert Run(a, ops).answers == [Call(a, ops[0]).answer] + t.answers;
      forall i | 0 < i < |ops|
        ensures Run(a, ops).answers[i] == t.answers[i - 1]
      {
      }
    }
  }

  /** How a driven action ended. */
  datatype Outcome =
    | NotQueued
    | PrepRejected
    | AwaitingInput
    | Running(charged: int)
    | Completed(maintainCalls: nat, charged: int)

  /**
   Calls maintain once per tick, with that tick's elapsed time, until it
   reports Complete or the ticks run out.
   */
  function MaintainTicks(maintain: int -> MaintenanceStatus, dts: seq<int>, charged: int): Outcome
    decreases |dts|
  {
    if dts == [] then Running(charged)
    else if maintain(dts[0]) == Complete then Completed(1, charged)
    else match MaintainTicks(maintain, dts[1..], charged)
      case Completed(k, c) => Completed(k + 1, c)
      case other => other
  }

  /**
   The game loop's use of an action: queue it if Readyable, Prep it, take
   its input, charge its Cost once, fire its output, then Maintain it with
   the elapsed times dts.
   */
  function Drive(a: BasicAttack, actor: Entity, dts: seq<int>): Outcome
  {
    if !Readyable(a) then NotQueued
    else if !Prep(a, actor) then PrepRejected
    else if !HandleInput(a) then AwaitingInput
    else
      var ready := HandleOutput(a);
      MaintainTicks(dt => Maintain(ready, dt), dts, Cost(a))
  }

  /**
   A basic attack is instant: driven through the lifecycle it completes on
   its first Maintain, whatever the elapsed time (0 included), having been
   charged its definition's Ap exactly once.
   */
  lemma InstantCompletion(a: BasicAttack, actor: Entity, dts: seq<int>)
    ensures |dts| > 0 ==> Drive(a, actor, dts) == Completed(1, a.def.ap)
    ensures |dts| == 0 ==> Drive(a, actor, dts) == Running(a.def.ap)
  {
  }

  /** Cancelling right after construction leaves the action as it was built. */
  lemma CancelKeepsBinding(m: Maker, store: map<string, BasicAttackDef>)
    requires m.defname in store
    ensures Cancel(Construct(m, store).value) == BasicAttack(m.defname, store[m.defname])
    ensures HandleOutput(Construct(m, store).value) == BasicAttack(m.defname, store[m.defname])
  {
  }
}
