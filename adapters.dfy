/**
 * The adapter registry of lib/result.rb: `Result.add_adapter!`, `Result.from`, the
 * class-level hash `@@adapters` they share, and the `:exception` adapter installed
 * when the library loads.
 *
 * The hash is modelled twice: as pure functions on a `map` (Register, FromTable,
 * Replay), which carry the properties, and as the class `Registry` whose methods
 * update its `adapters` field in place and are proved against those functions.
 */
module Adapters {
  import opened Wrappers
  import opened Outcomes

  /**
   * A registered adapter block: the built-in `:exception` adapter, or a caller's
   * block, given by what it does with the block passed to `from`.
   */
  datatype Adapter = ExceptionAdapter | Custom(convert: Completion -> Completion)

  /**
   * The `:exception` adapter: calls the block; a normal return `v` becomes
   * `Success.new(v)`, a raised StandardError `e` becomes `Failure.new(e, e.message)`,
   * and any other exception is not rescued and passes through.
   */
  function RescueStandard(block: Completion): (c: Completion)
    ensures block.Returned? ==> c == Returned(Res(Success(block.value)))
    ensures block.Raised? && block.exc.standard ==>
              c == Returned(Res(Failure(Error(block.exc.cls, block.exc.message), Some(block.exc.message), Nil)))
    ensures block.Raised? && !block.exc.standard ==> c == block
  {
    match block
    case Returned(v) => Returned(Res(NewSuccess(v)))
    case Raised(e) =>
      if e.standard then Returned(Res(NewFailure(Exc(e), Str(e.message), Nil).value)) else block
  }

  /** `adapter.call(block)`: a caller's adapter is run as given; the built-in one rescues StandardError. */
  function CallAdapter(a: Adapter, block: Completion): (c: Completion)
    ensures a.Custom? ==> c == a.convert(block)
    ensures a.ExceptionAdapter? && block.Returned? ==> c.Returned? && c.value.Res? && c.value.outcome.IsSuccess()
    ensures a.ExceptionAdapter? && block.Raised? ==> (c.Returned? <==> block.exc.standard)
  {
    match a
    case ExceptionAdapter => RescueStandard(block)
    case Custom(convert) => convert(block)
  }

  /** The table only ever holds Symbol keys. */
  predicate SymbolKeys(m: map<Value, Adapter>) {
    forall k :: k in m ==> k.Sym?
  }

  /**
   * `add_adapter!(name, &block)` on the table `m`: a name that is not a Symbol is
   * refused first, then a missing block, then a name already present; otherwise the
   * table gains exactly that one entry and every other entry stays as it was.
   */
  function Register(m: map<Value, Adapter>, name: Value, block: Option<Adapter>): (r: Result<map<Value, Adapter>, Raise>)
    ensures !name.Sym? ==> r == Err(ArgumentError(NameNotSymbol))
    ensures name.Sym? && block.None? ==> r == Err(ArgumentError(NoBlockGiven))
    ensures name.Sym? && block.Some? && name in m ==> r == Err(ArgumentError(AdapterExists))
    ensures r.Ok? <==> name.Sym? && block.Some? && name !in m
    ensures r.Ok? ==> r.value.Keys == m.Keys + {name} && r.value[name] == block.value
    ensures r.Ok? ==> forall k :: k in m ==> r.value[k] == m[k]
    ensures r.Ok? && SymbolKeys(m) ==> SymbolKeys(r.value)
  {
    if !name.Sym? then Err(ArgumentError(NameNotSymbol))
    else if block.None? then Err(ArgumentError(NoBlockGiven))
    else if name in m then Err(ArgumentError(AdapterExists))
    else Ok(m[name := block.value])
  }

  /**
   * `from(name, &block)` on the table `m`: an unregistered name is refused first,
   * then a missing block; otherwise whatever the adapter returns or raises, with no
   * check that it is a Result.
   */
  function FromTable(m: map<Value, Adapter>, name: Value, block: Option<Completion>): (r: Result<Value, Raise>)
    ensures name !in m ==> r == Err(ArgumentError(AdapterMissing))
    ensures name in m && block.None? ==> r == Err(ArgumentError(NoBlockGiven))
    ensures name in m && block.Some? ==> r == Resume(CallAdapter(m[name], block.value))
  {
    if name !in m then Err(ArgumentError(AdapterMissing))
    else if block.None? then Err(ArgumentError(NoBlockGiven))
    else Resume(CallAdapter(m[name], block.value))
  }

  /** The table right after the library loads: the `:exception` adapter and nothing else. */
  function DefaultTable(): (m: map<Value, Adapter>)
    ensures m == map[Sym("exception") := ExceptionAdapter]
  {
    Register(map[], Sym("exception"), Some(ExceptionAdapter)).value
  }

  /** A name registered once can never be registered again. */
  lemma RegisterTwiceFails(m: map<Value, Adapter>, name: Value, a: Adapter, b: Option<Adapter>)
    requires Register(m, name, Some(a)).Ok?
    ensures Register(Register(m, name, Some(a)).value, name, b).Err?
  {
  }

  /** The table after a sequence of `add_adapter!` calls; a call that raises leaves it as it was. */
  function Replay(m: map<Value, Adapter>, calls: seq<(Value, Option<Adapter>)>): (r: map<Value, Adapter>)
    ensures r.Keys <= m.Keys + set i | 0 <= i < |calls| :: calls[i].0
    decreases |calls|
  {
    if calls == [] then m
    else
      var next := match Register(m, calls[0].0, calls[0].1)
                  case Ok(m') => m'
                  case Err(_) => m;
      Replay(next, calls[1..])
  }

  /** The table is add-only: across any sequence of registrations no entry is removed or replaced. */
  lemma {:induction false} ReplayKeepsEntries(m: map<Value, Adapter>, calls: seq<(Value, Option<Adapter>)>)
    ensures m.Keys <= Replay(m, calls).Keys
    ensures forall k :: k in m ==> Replay(m, calls)[k] == m[k]
    decreases |calls|
  {
    if calls != [] {
      var next := match Register(m, calls[0].0, calls[0].1)
                  case Ok(m') => m'
                  case Err(_) => m;
      ReplayKeepsEntries(next, calls[1..]);
    }
  }

  /** Across any sequence of registrations the table keeps only Symbol keys. */
  lemma {:induction false} ReplayKeepsSymbolKeys(m: map<Value, Adapter>, calls: seq<(Value, Option<Adapter>)>)
    requires SymbolKeys(m)
    ensures SymbolKeys(Replay(m, calls))
    decreases |calls|
  {
    if calls != [] {
      var next := match Register(m, calls[0].0, calls[0].1)
                  case Ok(m') => m'
                  case Err(_) => m;
      ReplayKeepsSymbolKeys(next, calls[1..]);
    }
  }

  /**
   * Whatever is registered after load, `from(:exception)` keeps its meaning: a
   * normal return becomes a Success of that value, a StandardError a Failure
   * carrying it and its message.
   */
  lemma ExceptionAdapterIsPermanent(calls: seq<(Value, Option<Adapter>)>, block: Completion)
    ensures FromTable(Replay(DefaultTable(), calls), Sym("exception"), Some(block)) == Resume(RescueStandard(block))
  {
    ReplayKeepsEntries(DefaultTable(), calls);
  }

  /** `from` does not check what an adapter returns: an adapter returning `true` makes `from` return `true`. */
  lemma AdapterResultNotChecked(m: map<Value, Adapter>, block: Completion)
    requires Register(m, Sym("broken"), Some(Custom(_ => Returned(Bool(true))))).Ok?
    ensures FromTable(Register(m, Sym("broken"), Some(Custom(_ => Returned(Bool(true))))).value,
                      Sym("broken"), Some(block)) == Ok(Bool(true))
  {
  }

  /** The process-wide adapter table `@@adapters`, updated in place by `add_adapter!`. */
  class Registry {
    var adapters: map<Value, Adapter>

    /** The table's invariant: `add_adapter!` refuses a name that is not a Symbol, so every key is one. */
    ghost predicate Valid()
      reads this
    {
      SymbolKeys(adapters)
    }

    /** Loading lib/result.rb: an empty table into which the `:exception` adapter is installed. */
    constructor Load()
      ensures Valid()
      ensures adapters == DefaultTable()
    {
      adapters := map[];
      new;
      var installed := AddAdapter(Sym("exception"), Some(ExceptionAdapter));
    }

    /** `Result.add_adapter!(name, &block)`: returns the block on success. */
    method AddAdapter(name: Value, block: Option<Adapter>) returns (r: Result<Adapter, Raise>)
      requires Valid()
      modifies this
      ensures Valid()
      ensures Register(old(adapters), name, block).Ok? ==>
                adapters == Register(old(adapters), name, block).value && r == Ok(block.value)
      ensures Register(old(adapters), name, block).Err? ==>
                adapters == old(adapters) && r == Err(Register(old(adapters), name, block).error)
    {
      if !name.Sym? {
        return Err(ArgumentError(NameNotSymbol));
      }
      if block.None? {
        return Err(ArgumentError(NoBlockGiven));
      }
      if name in adapters {
        return Err(ArgumentError(AdapterExists));
      }
      adapters := adapters[name := block.value];
      r := Ok(block.value);
    }

    /** `Result.from(name, &block)`: reads the table and changes nothing. */
    method From(name: Value, block: Option<Completion>) returns (r: Result<Value, Raise>)
      ensures r == FromTable(adapters, name, block)
    {
      if name !in adapters {
        return Err(ArgumentError(AdapterMissing));
      }
      if block.None? {
        return Err(ArgumentError(NoBlockGiven));
      }
      r := Resume(CallAdapter(adapters[name], block.value));
    }
  }
}
