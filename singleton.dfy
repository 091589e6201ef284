/**
 * The singleton metaclass of slepy/singleton/singleton.py.
 *
 * Every class built by `SingletonMeta` shares one registry, `_instances`, that maps a class to
 * its single instance. Calling the class registers a fresh instance and refuses a second one;
 * `get_instance` (and the `instance` class property that `Singleton` subclasses get) returns the
 * registered instance, creating it on first use.
 *
 * Running the class's own constructor is code this model cannot see, so each operation takes
 * its outcome as a parameter: the object it would build, or the exception it would raise.
 */
module Singleton {
  import opened Wrappers

  /** A class, identified by its name. */
  type ClassId = string

  /** What running the class's constructor would do. */
  datatype Construction<I> = Built(obj: I) | Raised(reason: string)

  /** The exceptions the metaclass lets out. */
  datatype SingletonError =
    | AlreadyInstantiated             // the RuntimeError of a second `cls(...)`
    | ConstructorRaised(reason: string)  // the constructor's own exception, propagated

  /** The result of one operation and the registry it leaves. */
  datatype Step<I> = Step(result: Result<I, SingletonError>, registry: map<ClassId, I>)

  /** `cls(*args)`: only a class not yet registered may be instantiated. */
  function CallOutcome<I>(reg: map<ClassId, I>, cls: ClassId, make: Construction<I>): (s: Step<I>)
    ensures s.result.Success? <==> cls !in reg && make.Built?
    ensures s.result.Success? ==> s.result.value == make.obj && s.registry == reg[cls := make.obj]
    ensures s.result.Failure? ==> s.registry == reg
    ensures cls in reg ==> s.result == Failure(AlreadyInstantiated)
    ensures cls !in reg && make.Raised? ==> s.result == Failure(ConstructorRaised(make.reason))
  {
    if cls !in reg then
      match make
      case Built(obj) => Step(Success(obj), reg[cls := obj])
      case Raised(reason) => Step(Failure(ConstructorRaised(reason)), reg)
    else
      Step(Failure(AlreadyInstantiated), reg)
  }

  /** `cls.get_instance(*args)`: the registered instance, built and registered on first use. */
  function GetInstanceOutcome<I>(reg: map<ClassId, I>, cls: ClassId, make: Construction<I>): (s: Step<I>)
    ensures cls in reg ==> s == Step(Success(reg[cls]), reg)
    ensures s.result.Success? <==> cls in reg || make.Built?
    ensures s.result.Success? ==> cls in s.registry && s.registry[cls] == s.result.value
    ensures s.result != Failure(AlreadyInstantiated)
    ensures s.registry.Keys == if s.result.Success? then reg.Keys + {cls} else reg.Keys
    ensures cls !in reg && make.Built? ==> s == Step(Success(make.obj), reg[cls := make.obj])
    ensures cls !in reg && make.Raised? ==> s == Step(Failure(ConstructorRaised(make.reason)), reg)
  {
    if cls in reg then Step(Success(reg[cls]), reg)
    else
      match make
      case Built(obj) => Step(Success(obj), reg[cls := obj])
      case Raised(reason) => Step(Failure(ConstructorRaised(reason)), reg)
  }

  /** The registry shared by every class the metaclass builds. */
  class SingletonMeta<I> {
    var instances: map<ClassId, I>

    /** `_instances = {}`. */
    constructor()
      ensures instances == map[]
    {
      instances := map[];
    }

    /** `cls(*args)`. */
    method Call(cls: ClassId, make: Construction<I>) returns (r: Result<I, SingletonError>)
      modifies this
      ensures Step(r, instances) == CallOutcome(old(instances), cls, make)
    {
      if cls !in instances {
        match make {
          case Built(obj) =>
            instances := instances[cls := obj];
            return Success(obj);
          case Raised(reason) =>
            return Failure(ConstructorRaised(reason));
        }
      }
      return Failure(AlreadyInstantiated);
    }

    /** `cls.get_instance(*args)`. */
    method GetInstance(cls: ClassId, make: Construction<I>) returns (r: Result<I, SingletonError>)
      modifies this
      ensures Step(r, instances) == GetInstanceOutcome(old(instances), cls, make)
    {
      if cls !in instances {
        match make {
          case Built(obj) =>
            instances := instances[cls := obj];
          case Raised(reason) =>
            return Failure(ConstructorRaised(reason));
        }
      }
      return Success(instances[cls]);
    }

    /**
     * `cls.instance` on a `Singleton` subclass: `get_instance()` without arguments, so `make`
     * is what the constructor does when called with none.
     */
    method Instance(cls: ClassId, make: Construction<I>) returns (r: Result<I, SingletonError>)
      modifies this
      ensures Step(r, instances) == GetInstanceOutcome(old(instances), cls, make)
    {
      r := GetInstance(cls, make);
    }
  }

  // ---------------------------------------------------------------------------------------
  // Sequences of operations on the registry

  datatype Op<I> =
    | CallOp(cls: ClassId, make: Construction<I>)
    | GetOp(cls: ClassId, make: Construction<I>)

  function Apply<I>(reg: map<ClassId, I>, op: Op<I>): Step<I>
  {
    match op
    case CallOp(cls, make) => CallOutcome(reg, cls, make)
    case GetOp(cls, make) => GetInstanceOutcome(reg, cls, make)
  }

  /** An operation changes the registry only at the class it is applied to, and only by adding it. */
  lemma ApplyFrame<I>(reg: map<ClassId, I>, op: Op<I>)
    ensures reg.Keys <= Apply(reg, op).registry.Keys
    ensures forall c :: c in reg ==> Apply(reg, op).registry[c] == reg[c]
    ensures forall c :: c != op.cls ==> (c in Apply(reg, op).registry <==> c in reg)
    ensures Apply(reg, op).result.Success? ==>
      op.cls in Apply(reg, op).registry && Apply(reg, op).registry[op.cls] == Apply(reg, op).result.value
  {}

  /** The registry after running `ops` in order. */
  function Run<I>(reg: map<ClassId, I>, ops: seq<Op<I>>): map<ClassId, I>
    decreases |ops|
  {
    if ops == [] then reg else Run(Apply(reg, ops[0]).registry, ops[1..])
  }

  /** How many of `ops` are calls of `cls` that succeed. */
  function CallSuccesses<I>(reg: map<ClassId, I>, ops: seq<Op<I>>, cls: ClassId): nat
    decreases |ops|
  {
    if ops == [] then 0
    else
      var s := Apply(reg, ops[0]);
      (if ops[0].CallOp? && ops[0].cls == cls && s.result.Success? then 1 else 0)
      + CallSuccesses(s.registry, ops[1..], cls)
  }

  /** The objects that the operations of `ops` on `cls` hand back, in order. */
  function Handed<I>(reg: map<ClassId, I>, ops: seq<Op<I>>, cls: ClassId): seq<I>
    decreases |ops|
  {
    if ops == [] then []
    else
      var s := Apply(reg, ops[0]);
      (if ops[0].cls == cls && s.result.Success? then [s.result.value] else [])
      + Handed(s.registry, ops[1..], cls)
  }

  /** Once registered, an instance is never replaced or removed. */
  lemma {:induction false} RunKeepsInstances<I>(reg: map<ClassId, I>, ops: seq<Op<I>>)
    ensures reg.Keys <= Run(reg, ops).Keys
    ensures forall c :: c in reg ==> Run(reg, ops)[c] == reg[c]
    decreases |ops|
  {
    if ops != [] {
      ApplyFrame(reg, ops[0]);
      RunKeepsInstances(Apply(reg, ops[0]).registry, ops[1..]);
    }
  }

  /** Operations on other classes leave a class unregistered. */
  lemma {:induction false} RunLeavesOthers<I>(reg: map<ClassId, I>, ops: seq<Op<I>>, cls: ClassId)
    requires cls !in reg
    requires forall i :: 0 <= i < |ops| ==> ops[i].cls != cls
    ensures cls !in Run(reg, ops)
    decreases |ops|
  {
    if ops != [] {
      ApplyFrame(reg, ops[0]);
      RunLeavesOthers(Apply(reg, ops[0]).registry, ops[1..], cls);
    }
  }

  /** Calling a registered class always raises, however many operations come between. */
  lemma CallAfterRegistration<I>(reg: map<ClassId, I>, ops: seq<Op<I>>, cls: ClassId, make: Construction<I>)
    requires cls in reg
    ensures CallOutcome(Run(reg, ops), cls, make) == Step(Failure(AlreadyInstantiated), Run(reg, ops))
  {
    RunKeepsInstances(reg, ops);
  }

  /** `get_instance` after `get_instance` returns the same object and changes nothing. */
  lemma GetInstanceIdempotent<I>(reg: map<ClassId, I>, cls: ClassId, make: Construction<I>, make': Construction<I>)
    requires GetInstanceOutcome(reg, cls, make).result.Success?
    ensures var s := GetInstanceOutcome(reg, cls, make);
      GetInstanceOutcome(s.registry, cls, make') == s
  {}

  /** A class is instantiated by a successful call at most once, and never once it is registered. */
  lemma {:induction false} AtMostOneCall<I>(reg: map<ClassId, I>, ops: seq<Op<I>>, cls: ClassId)
    ensures CallSuccesses(reg, ops, cls) <= if cls in reg then 0 else 1
    decreases |ops|
  {
    if ops != [] {
      var s := Apply(reg, ops[0]);
      ApplyFrame(reg, ops[0]);
      AtMostOneCall(s.registry, ops[1..], cls);
    }
  }

  /**
   * The singleton promise: every object handed back for `cls` is one and the same, and it is
   * the registered one when `cls` was registered to begin with.
   */
  lemma {:induction false} OneInstance<I>(reg: map<ClassId, I>, ops: seq<Op<I>>, cls: ClassId)
    ensures cls in reg ==> forall i :: 0 <= i < |Handed(reg, ops, cls)| ==> Handed(reg, ops, cls)[i] == reg[cls]
    ensures forall i, j :: 0 <= i < j < |Handed(reg, ops, cls)| ==> Handed(reg, ops, cls)[i] == Handed(reg, ops, cls)[j]
    decreases |ops|
  {
    if ops != [] {
      var s := Apply(reg, ops[0]);
      ApplyFrame(reg, ops[0]);
      OneInstance(s.registry, ops[1..], cls);
      var rest := Handed(s.registry, ops[1..], cls);
      if ops[0].cls == cls && s.result.Success? {
        assert Handed(reg, ops, cls) == [s.result.value] + rest;
      } else {
        assert Handed(reg, ops, cls) == rest;
      }
    }
  }
}
