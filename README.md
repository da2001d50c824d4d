# result: outcome values and the adapter registry, in Dafny

This project models `lib/result.rb` of the Ruby library `result`, which represents the outcome of a fallible
operation as a value instead of an exception:

- `Result::Success` holds data. `Result::Failure` holds an error, an error message and data.
  - `Failure.new` accepts only nil, a Symbol or a StandardError as its error.
  - It derives the message from the error and an optional explicit message.
- `and_then` chains fallible steps. `on_success` and `on_failure` run a block depending on the outcome.
- `Result.add_adapter!` and `Result.from` keep a class-level, add-only table of named adapters.
  - An adapter turns code that may raise into an outcome.
  - Loading the library installs the `:exception` adapter.

Files:

- `outcomes.dfy` (module `Outcomes`) models the outcome classes.
  - Ruby values are the datatype `Value`: nil, booleans, integers, strings, symbols, exceptions, outcomes and any other object.
  - An exception records its class, its message and whether it is a StandardError.
  - The outcomes are values, because their fields are written once, in `initialize`.
  - A call that raises returns `Err(Raise)`. A `Raise` is either the library's own `ArgumentError(kind)` or `Propagated(e)`, an exception raised by the caller's block that the library lets through.
  - A block the library calls is a `Completion`, what calling it does: return a value or raise. A `Run` records how many times an operation called a block.
- `adapters.dfy` (module `Adapters`) models the registry.
  - Pure functions on a `map` (`Register`, `FromTable`, `Replay`) carry the properties.
  - The class `Registry` has a mutable `adapters` field. Its methods `AddAdapter` and `From` are proved against those functions.
  - Its constructor `Load` models what loading the file does.
- `decimal.dfy` (module `Decimal`) is `Integer#to_s`. It is used when an integer message is turned into a string.
- `wrappers.dfy` holds `Option` and `Result`.
- `scenarios.dfy` holds the behaviours of `spec/result_spec.rb` on concrete values, and a session against `Registry`.

What the code does not have, and so the model does not have either:

- There is no generic `on(event)` dispatch. The only hooks are `on_success` and `on_failure`.
  - They return the block's value, or nil when the outcome does not match. When it matches and no block was given, they raise NoMethodError. They do not return the receiver (lib/result.rb:19-25).
  - Neither passes arguments to its block. `on_failure` does not hand the error, message or data to the block.
- There are no reserved error names: `Failure.new(:failure)` succeeds (spec/result_spec.rb:128, `Scenarios.FailureAcceptsFailureSymbol`).
- `from` does not check that an adapter returned a Result (lib/result.rb:91, `Adapters.AdapterResultNotChecked`).

## Model

| member | source | states |
|---|---|---|
| `Decimal.NatToS` | lib/result.rb:49 | the numeral of a natural number is non-empty, all digits, and has no leading zero |
| `Decimal.IntToS` | lib/result.rb:49 | an integer's numeral starts with `-` exactly when the integer is negative |
| `Decimal.ParseNatToS` | lib/result.rb:49 | reading a natural number's numeral back gives the same number |
| `Decimal.ParseIntToS` | lib/result.rb:49 | an integer's numeral is well formed and reads back as the same integer |
| `Decimal.IntToSInjective` | lib/result.rb:49 | distinct integers give distinct message strings |
| `Outcomes.Resume` | lib/result.rb:91 | a call that hands back a block's result returns what the block returns, or raises what the block raised |
| `Outcomes.ErrorId.AsValue` | lib/result.rb:3 | the `error` reader gives nil for no error, a Symbol for a symbolic error and an exception for a StandardError |
| `Outcomes.ErrorIdOf` | lib/result.rb:39-41 | an error argument is accepted exactly when it is nil, a Symbol or a StandardError; an accepted error is stored so that the reader gives it back unchanged |
| `Outcomes.ErrorIdOfAsValue` | lib/result.rb:54 | every stored error is the image of exactly the value it came from (the other half of the round trip) |
| `Outcomes.IsValidError` | lib/result.rb:39 | the test on the error argument: nil, a Symbol, or an exception that is a StandardError; `ErrorIdOf` and `NewFailure` state that exactly these are accepted |
| `Outcomes.ToS` | lib/result.rb:49 | `to_s`: a string prints as itself, and an integer prints as a numeral that reads back as that integer |
| `Outcomes.Outcome.IsSuccess` | lib/result.rb:5-7 | `success?` is the outcome's variant, so it never changes; `NewSuccess` and `NewFailure` state its value for each constructor |
| `Outcomes.Outcome.ErrorValue` | lib/result.rb:3 | the `error` reader gives nil on a Success; on a Failure it gives a value that maps back to exactly the stored error |
| `Outcomes.Outcome.ErrorMessage` | lib/result.rb:3 | the `error_msg` reader gives nil on a Success and the stored message on a Failure |
| `Outcomes.DeriveMessage` | lib/result.rb:43-50 | a message exists exactly when one was given or the error is a StandardError. A given message becomes its `to_s`. With no message given, the result is the exception's message. |
| `Outcomes.NewSuccess` | lib/result.rb:29-33 | `Success.new(d)` is successful and its data is `d`; its `error` and `error_msg` readers give nil |
| `Outcomes.NewFailure` | lib/result.rb:38-55 | `Failure.new(e, m, d)` raises ArgumentError, and builds nothing, exactly when `e` is not nil, a Symbol or a StandardError. Otherwise it builds a Failure that is not successful and whose `error` is `e` and whose `data` is `d`. Its message is the exception's message when `e` is a StandardError and `m` is nil. It is nil when `m` is nil and `e` is not an exception. It is `m.to_s` whenever `m` is given. |
| `Outcomes.AndThen` | lib/result.rb:9-17 | on a Success the block is called once with the data. A returned Result is the result, any other return value raises ArgumentError, and a raise from the block passes through. With no block, the call raises NoMethodError and no block runs. On a Failure no block is called and the receiver is returned, whether or not a block was given. |
| `Outcomes.OnSuccess` | lib/result.rb:19-21 | the block is called once, with no arguments, exactly when the outcome succeeded and a block was given. The call evaluates to the block's value. It is nil on a Failure, and on a Success without a block it raises NoMethodError. |
| `Outcomes.OnFailure` | lib/result.rb:23-25 | the block is called once, with no arguments, exactly when the outcome failed and a block was given. The call evaluates to the block's value. It is nil on a Success, and on a Failure without a block it raises NoMethodError. |
| `Outcomes.HooksCallExactlyOne` | lib/result.rb:19-25 | of `on_success` and `on_failure` with blocks on one outcome, exactly one calls its block |
| `Outcomes.Chain` | lib/result.rb:9-17 | a chain of `and_then` calls runs at most one block per step |
| `Outcomes.ChainFromFailure` | lib/result.rb:14-16 | a chain started on a Failure runs no block and ends with that same Failure |
| `Outcomes.FirstFailureReachesEnd` | lib/result.rb:9-17 | after any run of steps ending in a Success, a step that returns a Failure ends the chain. That Failure is the chain's result, and no later block runs. |
| `Outcomes.ChainAppend` | lib/result.rb:9-17 | a chain of `s1 + s2` is the chain of `s1`. Unless that raised, the chain of `s2` then continues from where `s1` ended, and the block calls add up. |
| `Outcomes.ChainAllSucceed` | lib/result.rb:10-13 | when each step returns a Success on the data it is actually given, every block runs once and the chain ends in a Success |
| `Adapters.RescueStandard` | lib/result.rb:95-101 | the `:exception` adapter turns a normal return `v` into `Success(v)`. It turns a raised StandardError `e` into a Failure with error `e`, message `e.message` and no data. Any other exception passes through. |
| `Adapters.CallAdapter` | lib/result.rb:91 | a caller's adapter is run on the block exactly as given. The built-in adapter turns a normal return into a successful Result, and returns normally after a raise exactly when the exception is a StandardError. |
| `Adapters.Register` | lib/result.rb:59-75 | `add_adapter!` checks in this order: a name that is not a Symbol, then a missing block, then a name already present. Each check raises. Otherwise the table gains exactly that entry, keeps every other entry, and still has only Symbol keys. |
| `Adapters.FromTable` | lib/result.rb:77-92 | `from` raises for an unregistered name before it checks for a missing block, and raises for a missing block next. Otherwise it returns or raises whatever the adapter does. |
| `Adapters.DefaultTable` | lib/result.rb:95 | after load the table holds the `:exception` adapter and nothing else |
| `Adapters.Replay` | lib/result.rb:59-75 | after a sequence of `add_adapter!` calls the table holds only the names it started with and the names that were passed |
| `Adapters.RegisterTwiceFails` | lib/result.rb:70-72 | a name that was registered once can never be registered again |
| `Adapters.ReplayKeepsEntries` | lib/result.rb:68-74 | over any sequence of `add_adapter!` calls no entry is removed or replaced |
| `Adapters.ReplayKeepsSymbolKeys` | lib/result.rb:59-74 | over any sequence of `add_adapter!` calls the table has only Symbol keys |
| `Adapters.ExceptionAdapterIsPermanent` | lib/result.rb:95-101 | after any later registrations, `from(:exception)` still does what the `:exception` adapter does |
| `Adapters.AdapterResultNotChecked` | lib/result.rb:91 | an adapter that returns `true` makes `from` return `true`: the return value is not validated |
| `Adapters.Registry.Load` | lib/result.rb:95-101 | loading the library leaves the table holding only the `:exception` adapter |
| `Adapters.Registry.AddAdapter` | lib/result.rb:59-75 | the new table is what `Register` gives, and the method returns the block; on a refusal the table is unchanged and the same error is raised |
| `Adapters.Registry.From` | lib/result.rb:77-92 | reads the table and returns what `FromTable` gives |
| `Scenarios.SuccessExamples` | spec/result_spec.rb:5-15 | `Success.new()` has nil data; `Success.new({data: true})` keeps its data |
| `Scenarios.FailureErrorExamples` | spec/result_spec.rb:19-37 | a String error is rejected; nil, a Symbol and an `ArgumentError.new` (whose message is its class name) are kept |
| `Scenarios.FailureRejectsPlainException` | lib/result.rb:39-41 | an exception that is not a StandardError is rejected |
| `Scenarios.FailureAcceptsFailureSymbol` | spec/result_spec.rb:127-130 | `Failure.new(:failure)` is accepted |
| `Scenarios.FailureMessageExamples` | spec/result_spec.rb:40-56 | the five message examples: explicit message, nil, `true` printed as "true", exception message, explicit message overriding it |
| `Scenarios.FailureIntegerMessage` | lib/result.rb:49 | an integer message is printed in base 10 |
| `Scenarios.AndThenExamples` | spec/result_spec.rb:120-131 | `Success(1).and_then { Success(v + 1) }` gives `Success(2)` after one call, and on `Failure(:failure)` no block is called |
| `Scenarios.AndThenRejectsBareValue` | lib/result.rb:12 | a block that returns a bare value makes `and_then` raise ArgumentError |
| `Scenarios.IncrementChain` | spec/result_spec.rb:121-125 | extends that example's single `v + 1` step to two: chaining it twice from `Success(1)` runs both blocks and ends in `Success(3)` |
| `Scenarios.HookExamples` | spec/result_spec.rb:133-153 | `on_success` runs its block only on a Success, and `on_failure` only on a Failure |
| `Scenarios.RegistrySession` | spec/result_spec.rb:66-117 | against a loaded `Registry`: a name that is not a Symbol and a missing block are refused with ArgumentError; the custom `:boolean` adapter gives a Success on `true` and a Failure on `nil`; registering `:boolean` again and `from` of an unknown name are refused; `from(:exception)` turns a normal return into a Success holding it, and `ArgumentError("Failed")` into a Failure with that error and the message "Failed" |

## Left out

- Ruby's open class hierarchy: the code uses three `is_a?` tests, and each is a fixed part of `Value` instead of a class lookup.
  - `is_a?(Symbol)` (lib/result.rb:39, 60) is the `Sym` variant.
  - `is_a?(Result)` (lib/result.rb:12) is the `Res` variant.
  - `is_a?(StandardError)` (lib/result.rb:39, 44) is the `standard` flag on `Exception`.
- The text of the ArgumentError messages: only the kind of misuse is modelled (the message at lib/result.rb:40 names "String" although Strings are rejected).
- The text of the NoMethodError raised when `and_then`, `on_success` or `on_failure` calls a missing block: the model uses one fixed exception, `Outcomes.NilCall`.
- `to_s` of arbitrary objects: an `Obj` carries the string its `to_s` returns, and an outcome prints without its object address.
- Side effects of blocks: a block is modelled by what calling it returns or raises, and the model counts how often it is called. Other effects are not modelled.
  - As a result, a custom adapter sees the block passed to `from` only through that outcome.
- Exceptions raised by a custom adapter block itself: an adapter's call is a `Completion` computed from the block's, so an adapter may raise, but only in that functional form.
- The lazy `@@adapters ||= {}`: loading the library always registers `:exception`, so the table is never nil when used. The model starts from an empty map.
- Thread safety of `@@adapters`: the code is single-threaded and unsynchronised, and so is the model.
- spec/result_spec.rb is the test harness, not a modelled component; `Scenarios` restates its examples.
