/** The behaviours spec/result_spec.rb describes, stated on concrete values. */
module Scenarios {
  import opened Wrappers
  import opened Outcomes
  import opened Adapters
  import Decimal

  /** `Success.new()` and `Success.new({data: true})`. */
  lemma SuccessExamples()
    ensures NewSuccess(Nil).IsSuccess() && NewSuccess(Nil).data == Nil
    ensures NewSuccess(Obj("Hash", "{:data=>true}")).data == Obj("Hash", "{:data=>true}")
  {
  }

  /** A String error is refused; nil, a Symbol and an ArgumentError are kept as given. */
  lemma FailureErrorExamples()
    ensures NewFailure(Str("string"), Nil, Nil) == Err(ArgumentError(InvalidError))
    ensures NewFailure(Nil, Nil, Nil) == Ok(Failure(NoError, None, Nil))
    ensures NewFailure(Sym("error"), Nil, Nil).value.ErrorValue() == Sym("error")
    ensures NewFailure(Exc(Exception("ArgumentError", "ArgumentError", true)), Nil, Nil).value.error
              == Error("ArgumentError", "ArgumentError")
  {
  }

  /** A non-StandardError exception, such as an Interrupt, is refused like a String. */
  lemma FailureRejectsPlainException(msg: string)
    ensures NewFailure(Exc(Exception("Interrupt", msg, false)), Nil, Nil).Err?
  {
  }

  /** The reserved-looking symbol `:failure` is accepted: the library has no reserved names. */
  lemma FailureAcceptsFailureSymbol()
    ensures NewFailure(Sym("failure"), Nil, Nil) == Ok(Failure(Symbol("failure"), None, Nil))
  {
  }

  /** The five message examples of the error_msg examples. */
  lemma FailureMessageExamples()
    ensures NewFailure(Nil, Str("Error message"), Nil).value.ErrorMessage() == Some("Error message")
    ensures NewFailure(Nil, Nil, Nil).value.ErrorMessage() == None
    ensures NewFailure(Nil, Bool(true), Nil).value.ErrorMessage() == Some("true")
    ensures NewFailure(Exc(Exception("ArgumentError", "Error message", true)), Nil, Nil).value.ErrorMessage()
              == Some("Error message")
    ensures NewFailure(Exc(Exception("ArgumentError", "Error message", true)), Str("Another message"), Nil)
              .value.ErrorMessage() == Some("Another message")
  {
  }

  /** An integer message is printed in base 10, so `Failure.new(nil, 42)` reads "42". */
  lemma FailureIntegerMessage()
    ensures NewFailure(Nil, Int(42), Nil).value.ErrorMessage() == Some("42")
  {
    assert Decimal.DigitChar(4) == '4';
    assert Decimal.NatToS(4) == "4";
    assert Decimal.DigitChar(2) == '2';
    assert Decimal.NatToS(42) == "4" + "2";
    assert ToS(Int(42)) == "42";
  }

  /**
   * The block `{ |v| Result::Success.new(v + 1) }`. On a non-Integer `v + 1` raises:
   * a String refuses the Integer operand with a TypeError, and the other values
   * here have no `+` at all.
   */
  function Increment(v: Value): Completion {
    match v
    case Int(i) => Returned(Res(Success(Int(i + 1))))
    case Str(_) => Raised(Exception("TypeError", "no implicit conversion of Integer into String", true))
    case _ => Raised(Exception("NoMethodError", "undefined method '+'", true))
  }

  /** `Success.new(1).and_then { |v| Success.new(v + 1) }` and the same on `Failure.new(:failure)`. */
  lemma AndThenExamples()
    ensures AndThen(Success(Int(1)), Some(Increment)) == Run(Ok(Success(Int(2))), 1)
    ensures AndThen(Failure(Symbol("failure"), None, Nil), Some(Increment))
              == Run(Ok(Failure(Symbol("failure"), None, Nil)), 0)
  {
  }

  /** A block that returns a bare value instead of a Result makes `and_then` raise ArgumentError. */
  lemma AndThenRejectsBareValue()
    ensures AndThen(Success(Int(1)), Some(v => Returned(v))).result == Err(ArgumentError(NotAResult))
  {
  }

  /** Chaining the `v + 1` block twice from `Success.new(1)` runs both blocks and ends in `Success(3)`. */
  lemma IncrementChain()
    ensures Chain(Success(Int(1)), [Increment, Increment]).calls == 2
    ensures Chain(Success(Int(1)), [Increment, Increment]).result.Ok?
    ensures Chain(Success(Int(1)), [Increment, Increment]).result.value.IsSuccess()
    ensures Chain(Success(Int(1)), [Increment, Increment]).result == Ok(Success(Int(3)))
  {
    assert EveryStepSucceeds(Success(Int(3)), []);
    assert EveryStepSucceeds(Success(Int(2)), [Increment]);
    ChainAllSucceed(Success(Int(1)), [Increment, Increment]);
    assert Chain(Success(Int(3)), []) == Run(Ok(Success(Int(3))), 0);
    assert Chain(Success(Int(2)), [Increment]) == Run(Ok(Success(Int(3))), 1);
  }

  /** `on_success` runs only on a Success, `on_failure` only on a Failure. */
  lemma HookExamples(block: Completion)
    ensures OnSuccess(Success(Int(1)), Some(block)).calls == 1
    ensures OnSuccess(Failure(NoError, None, Nil), Some(block)).calls == 0
    ensures OnFailure(Success(Int(1)), Some(block)).calls == 0
    ensures OnFailure(Failure(NoError, None, Nil), Some(block)).calls == 1
  {
  }

  /** The `:boolean` adapter of the adapter examples: Success when the block's value is truthy, else Failure. */
  function Boolean(block: Completion): Completion {
    match block
    case Raised(e) => block
    case Returned(v) =>
      if v.Nil? || v == Bool(false) then Returned(Res(Failure(NoError, None, Nil))) else Returned(Res(Success(Nil)))
  }

  /** A session against the registry: loading, registering, running, and the refusals. */
  method RegistrySession()
  {
    var registry := new Registry.Load();

    var badName := registry.AddAdapter(Str("not a symbol"), Some(Custom(Boolean)));
    assert badName == Err(ArgumentError(NameNotSymbol));
    var noBlock := registry.AddAdapter(Sym("no_block_given"), None);
    assert noBlock == Err(ArgumentError(NoBlockGiven));

    var added := registry.AddAdapter(Sym("boolean"), Some(Custom(Boolean)));
    assert added.Ok?;
    var yes := registry.From(Sym("boolean"), Some(Returned(Bool(true))));
    assert yes.Ok? && yes.value.Res? && yes.value.outcome.IsSuccess();
    var no := registry.From(Sym("boolean"), Some(Returned(Nil)));
    assert no.Ok? && no.value.Res? && !no.value.outcome.IsSuccess();

    var again := registry.AddAdapter(Sym("boolean"), Some(Custom(Boolean)));
    assert again == Err(ArgumentError(AdapterExists));
    var missing := registry.From(Sym("missing"), None);
    assert missing == Err(ArgumentError(AdapterMissing));

    var ok := registry.From(Sym("exception"), Some(Returned(Obj("Hash", "{:data=>true}"))));
    assert ok == Ok(Res(Success(Obj("Hash", "{:data=>true}"))));
    var failed := registry.From(Sym("exception"), Some(Raised(Exception("ArgumentError", "Failed", true))));
    assert failed == Ok(Res(Failure(Error("ArgumentError", "Failed"), Some("Failed"), Nil)));
  }
}
