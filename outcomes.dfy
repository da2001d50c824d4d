/**
 * The outcome values of lib/result.rb: Result::Success and Result::Failure, the
 * Failure constructor's validation and message rule, and the combinators `and_then`,
 * `on_success` and `on_failure`.
 *
 * Ruby is dynamically typed, so every argument the library receives is a `Value`,
 * and a raise becomes an `Err` result. The outcome classes set their fields once in
 * `initialize` and never again, so they are values here.
 */
module Outcomes {
  import opened Wrappers
  import Decimal

  /** A Ruby exception object: its class name, its message, and whether its class descends from StandardError. */
  datatype Exception = Exception(cls: string, message: string, standard: bool)

  /** Any Ruby value the library can be handed. */
  datatype Value =
    | Nil
    | Bool(b: bool)
    | Int(i: int)
    | Str(s: string)
    | Sym(name: string)
    | Exc(exc: Exception)
    | Res(outcome: Outcome)
    /** Any other object: its class name and the string its `to_s` returns. */
    | Obj(cls: string, text: string)

  /** What calling a caller-supplied block does: it returns a value, or it raises an exception. */
  datatype Completion = Returned(value: Value) | Raised(exc: Exception)

  /** The misuses the library reports by raising ArgumentError. */
  datatype Misuse =
    | InvalidError    // Failure.new given an error that is not nil, a Symbol or a StandardError
    | NotAResult      // an and_then block returned something that is not a Result
    | NameNotSymbol   // add_adapter! given a name that is not a Symbol
    | NoBlockGiven    // add_adapter! or from called without a block
    | AdapterExists   // add_adapter! given a name that is already registered
    | AdapterMissing  // from given a name that is not registered

  /** Why a library call raised: its own ArgumentError, or an exception a caller's block raised and the library let through. */
  datatype Raise = ArgumentError(misuse: Misuse) | Propagated(exc: Exception)

  /** The number of times an operation called a caller-supplied block, beside what it produced. */
  datatype Run<+T> = Run(result: T, calls: nat)

  /** What a library call that hands back a block's result yields: the block's value, or its exception passed through. */
  function Resume(c: Completion): (r: Result<Value, Raise>)
    ensures c.Returned? <==> r.Ok?
    ensures r.Ok? ==> r.value == c.value
    ensures r.Err? ==> r.error == Propagated(c.exc)
  {
    match c
    case Returned(v) => Ok(v)
    case Raised(e) => Err(Propagated(e))
  }

  /** `to_s`: what Ruby prints for a value. A string prints as itself; an integer as a numeral that reads back as it. */
  function ToS(v: Value): (s: string)
    ensures v.Str? ==> s == v.s
    ensures v.Int? ==> Decimal.IsNumeral(s) && Decimal.ParseInt(s) == v.i
  {
    match v
    case Nil => ""
    case Bool(b) => if b then "true" else "false"
    case Int(i) => Decimal.ParseIntToS(i); Decimal.IntToS(i)
    case Str(s) => s
    case Sym(name) => name
    case Exc(e) => e.message
    case Res(o) => if o.Success? then "#<Result::Success>" else "#<Result::Failure>"
    case Obj(_, text) => text
  }

  /** The error a Failure holds: none, a symbol, or a StandardError (its class and message). */
  datatype ErrorId = NoError | Symbol(name: string) | Error(cls: string, message: string) {

    /** The Ruby value the `error` reader returns for this error. */
    function AsValue(): (v: Value)
      ensures v.Nil? <==> NoError?
      ensures v.Sym? <==> Symbol?
      ensures v.Exc? <==> Error?
    {
      match this
      case NoError => Nil
      case Symbol(name) => Sym(name)
      case Error(cls, message) => Exc(Exception(cls, message, true))
    }
  }

  /** The test Failure.new applies to its error argument: nil, a Symbol, or a StandardError. */
  predicate IsValidError(v: Value) {
    v.Nil? || v.Sym? || (v.Exc? && v.exc.standard)
  }

  /** The error a Failure stores for an accepted error argument; None for one it rejects. */
  function ErrorIdOf(v: Value): (id: Option<ErrorId>)
    ensures id.Some? <==> IsValidError(v)
    ensures id.Some? ==> id.value.AsValue() == v
  {
    match v
    case Nil => Some(NoError)
    case Sym(name) => Some(Symbol(name))
    case Exc(e) => if e.standard then Some(Error(e.cls, e.message)) else None
    case _ => None
  }

  /** Every stored error is the image of exactly the value it was built from. */
  lemma ErrorIdOfAsValue(id: ErrorId)
    ensures ErrorIdOf(id.AsValue()) == Some(id)
  {
  }

  /** Result::Success and Result::Failure. The success flag is the variant and never changes. */
  datatype Outcome =
    | Success(data: Value)
    | Failure(error: ErrorId, errorMsg: Option<string>, data: Value)
  {
    /** `success?` */
    predicate IsSuccess() {
      Success?
    }

    /** The `error` reader: a Success never sets @error, so it reads nil; a Failure gives back the error it stores. */
    function ErrorValue(): (v: Value)
      ensures Success? ==> v == Nil
      ensures Failure? ==> ErrorIdOf(v) == Some(error)
    {
      if Success? then Nil else error.AsValue()
    }

    /** The `error_msg` reader: a Success never sets @error_msg, so it reads nil. */
    function ErrorMessage(): (m: Option<string>)
      ensures Success? ==> m == None
      ensures Failure? ==> m == errorMsg
    {
      if Success? then None else errorMsg
    }
  }

  /** `Success.new(data = nil)`: a successful outcome carrying `data` and no error. */
  function NewSuccess(data: Value): (r: Outcome)
    ensures r.IsSuccess()
    ensures r.data == data
    ensures r.ErrorValue() == Nil && r.ErrorMessage() == None
  {
    Success(data)
  }

  /**
   * The message rule of Failure.new: the exception's own message when the error is
   * a StandardError and no message was given, nothing when no message was given
   * otherwise, and the given message's `to_s` whenever one was given.
   */
  function DeriveMessage(error: Value, errorMsg: Value): (m: Option<string>)
    ensures m.Some? <==> !errorMsg.Nil? || (error.Exc? && error.exc.standard)
    ensures !errorMsg.Nil? ==> m == Some(ToS(errorMsg))
    ensures errorMsg.Nil? && m.Some? ==> m.value == error.exc.message
  {
    if error.Exc? && error.exc.standard && errorMsg.Nil? then Some(error.exc.message)
    else if errorMsg.Nil? then None
    else Some(ToS(errorMsg))
  }

  /**
   * `Failure.new(error = nil, error_msg = nil, data = nil)`: rejects an error that is
   * not nil, a Symbol or a StandardError before anything is built; otherwise a failed
   * outcome holding exactly the given error and data, with the derived message.
   */
  function NewFailure(error: Value, errorMsg: Value, data: Value): (r: Result<Outcome, Raise>)
    ensures r.Err? <==> !IsValidError(error)
    ensures r.Err? ==> r.error == ArgumentError(InvalidError)
    ensures r.Ok? ==> !r.value.IsSuccess() && r.value.ErrorValue() == error && r.value.data == data
    ensures r.Ok? && error.Exc? && errorMsg.Nil? ==> r.value.ErrorMessage() == Some(error.exc.message)
    ensures r.Ok? && !error.Exc? && errorMsg.Nil? ==> r.value.ErrorMessage() == None
    ensures r.Ok? && !errorMsg.Nil? ==> r.value.ErrorMessage() == Some(ToS(errorMsg))
  {
    match ErrorIdOf(error)
    case None => Err(ArgumentError(InvalidError))
    case Some(id) => Ok(Failure(id, DeriveMessage(error, errorMsg), data))
  }

  /**
   * What calling a missing block raises: with no block given, `block` is nil, and
   * `nil.call` raises NoMethodError, a StandardError.
   */
  const NilCall := Exception("NoMethodError", "undefined method 'call' for nil", true)

  /**
   * `and_then`: on a Success, calls the block once with the data and returns what it
   * returns, raising ArgumentError when that is not a Result and letting the block's
   * own exception through (NoMethodError when no block was given); on a Failure,
   * returns the receiver and never calls the block.
   */
  function AndThen(r: Outcome, block: Option<Value -> Completion>): (run: Run<Result<Outcome, Raise>>)
    ensures run.calls == (if r.IsSuccess() && block.Some? then 1 else 0)
    ensures !r.IsSuccess() ==> run.result == Ok(r)
    ensures r.IsSuccess() && block.None? ==> run.result == Err(Propagated(NilCall))
    ensures r.IsSuccess() && block.Some? && run.result.Ok? ==>
              block.value(r.data) == Returned(Res(run.result.value))
    ensures r.IsSuccess() && block.Some? && block.value(r.data).Returned? && block.value(r.data).value.Res? ==>
              run.result == Ok(block.value(r.data).value.outcome)
    ensures r.IsSuccess() && block.Some? && block.value(r.data).Returned? && !block.value(r.data).value.Res? ==>
              run.result == Err(ArgumentError(NotAResult))
    ensures r.IsSuccess() && block.Some? && block.value(r.data).Raised? ==>
              run.result == Err(Propagated(block.value(r.data).exc))
  {
    if !r.IsSuccess() then Run(Ok(r), 0)
    else if block.None? then Run(Err(Propagated(NilCall)), 0)
    else
      match block.value(r.data)
      case Raised(e) => Run(Err(Propagated(e)), 1)
      case Returned(v) => if v.Res? then Run(Ok(v.outcome), 1) else Run(Err(ArgumentError(NotAResult)), 1)
  }

  /**
   * `on_success`: calls the block, with no arguments, exactly when the outcome
   * succeeded and a block was given, and evaluates to what the block returns; nil
   * when the outcome failed; NoMethodError on a success without a block.
   */
  function OnSuccess(r: Outcome, block: Option<Completion>): (run: Run<Result<Value, Raise>>)
    ensures run.calls == 1 <==> r.IsSuccess() && block.Some?
    ensures run.calls <= 1
    ensures r.IsSuccess() && block.Some? ==> run.result == Resume(block.value)
    ensures r.IsSuccess() && block.None? ==> run.result == Err(Propagated(NilCall))
    ensures !r.IsSuccess() ==> run.result == Ok(Nil)
  {
    if !r.IsSuccess() then Run(Ok(Nil), 0)
    else if block.None? then Run(Err(Propagated(NilCall)), 0)
    else Run(Resume(block.value), 1)
  }

  /**
   * `on_failure`: calls the block, with no arguments, exactly when the outcome
   * failed and a block was given, and evaluates to what the block returns; nil when
   * the outcome succeeded; NoMethodError on a failure without a block.
   */
  function OnFailure(r: Outcome, block: Option<Completion>): (run: Run<Result<Value, Raise>>)
    ensures run.calls == 1 <==> !r.IsSuccess() && block.Some?
    ensures run.calls <= 1
    ensures !r.IsSuccess() && block.Some? ==> run.result == Resume(block.value)
    ensures !r.IsSuccess() && block.None? ==> run.result == Err(Propagated(NilCall))
    ensures r.IsSuccess() ==> run.result == Ok(Nil)
  {
    if r.IsSuccess() then Run(Ok(Nil), 0)
    else if block.None? then Run(Err(Propagated(NilCall)), 0)
    else Run(Resume(block.value), 1)
  }

  /** Of `on_success` and `on_failure` with blocks on the same outcome, exactly one calls its block. */
  lemma HooksCallExactlyOne(r: Outcome, onSuccess: Completion, onFailure: Completion)
    ensures OnSuccess(r, Some(onSuccess)).calls + OnFailure(r, Some(onFailure)).calls == 1
  {
  }

  /**
   * `r.and_then(&s0).and_then(&s1)...`: the outcome at the end of a chain, and how many
   * blocks ran. A raise stops the chain there.
   */
  function Chain(r: Outcome, steps: seq<Value -> Completion>): (run: Run<Result<Outcome, Raise>>)
    ensures run.calls <= |steps|
    decreases |steps|
  {
    if steps == [] then Run(Ok(r), 0)
    else
      var first := AndThen(r, Some(steps[0]));
      match first.result
      case Err(_) => first
      case Ok(next) =>
        var rest := Chain(next, steps[1..]);
        Run(rest.result, first.calls + rest.calls)
  }

  /** A chain started on a Failure runs none of its blocks and ends with that same Failure. */
  lemma {:induction false} ChainFromFailure(r: Outcome, steps: seq<Value -> Completion>)
    requires !r.IsSuccess()
    ensures Chain(r, steps) == Run(Ok(r), 0)
    decreases |steps|
  {
    if steps != [] {
      ChainFromFailure(r, steps[1..]);
    }
  }

  /**
   * A chain splits at any point: running `s1 + s2` is running `s1`, and then, unless
   * that raised, running `s2` from where `s1` ended, the block calls adding up.
   */
  lemma {:induction false} ChainAppend(r: Outcome, s1: seq<Value -> Completion>, s2: seq<Value -> Completion>)
    ensures Chain(r, s1 + s2) ==
              if Chain(r, s1).result.Err? then Chain(r, s1)
              else Run(Chain(Chain(r, s1).result.value, s2).result,
                       Chain(r, s1).calls + Chain(Chain(r, s1).result.value, s2).calls)
    decreases |s1|
  {
    if s1 == [] {
      assert s1 + s2 == s2;
    } else {
      assert (s1 + s2)[0] == s1[0];
      assert (s1 + s2)[1..] == s1[1..] + s2;
      var first := AndThen(r, Some(s1[0]));
      if first.result.Ok? {
        ChainAppend(first.result.value, s1[1..], s2);
      }
    }
  }

  /**
   * The first step that returns a Failure ends the chain: after the steps `pre` have
   * all succeeded, a step returning the Failure `f` makes `f` the chain's result,
   * and no later block runs.
   */
  lemma FirstFailureReachesEnd(r: Outcome, pre: seq<Value -> Completion>, step: Value -> Completion,
                               post: seq<Value -> Completion>, f: Outcome)
    requires Chain(r, pre).result.Ok? && Chain(r, pre).result.value.IsSuccess()
    requires step(Chain(r, pre).result.value.data) == Returned(Res(f)) && !f.IsSuccess()
    ensures Chain(r, pre + [step] + post) == Run(Ok(f), Chain(r, pre).calls + 1)
  {
    assert pre + [step] + post == pre + ([step] + post);
    ChainAppend(r, pre, [step] + post);
    assert ([step] + post)[0] == step && ([step] + post)[1..] == post;
    ChainFromFailure(f, post);
  }

  /** Along the chain started at `r`, every step returns a successful Result. */
  predicate EveryStepSucceeds(r: Outcome, steps: seq<Value -> Completion>)
    decreases |steps|
  {
    steps == [] ||
    (var c := steps[0](r.data);
     c.Returned? && c.value.Res? && c.value.outcome.IsSuccess() && EveryStepSucceeds(c.value.outcome, steps[1..]))
  }

  /** A chain in which every step returns a Success runs every block, once each, and ends in a Success. */
  lemma {:induction false} ChainAllSucceed(r: Outcome, steps: seq<Value -> Completion>)
    requires r.IsSuccess() && EveryStepSucceeds(r, steps)
    ensures Chain(r, steps).calls == |steps|
    ensures Chain(r, steps).result.Ok? && Chain(r, steps).result.value.IsSuccess()
    decreases |steps|
  {
    if steps != [] {
      var next := steps[0](r.data).value.outcome;
      assert AndThen(r, Some(steps[0])).result == Ok(next);
      ChainAllSucceed(next, steps[1..]);
    }
  }
}
