/**
 * The `Try`/`FromResidual` machinery of `xlang_abi` (`xlang/xlang_abi/src/ops.rs`):
 * the ABI-stable `Result`, the standard `Result`, their residuals, the
 * `ControlFlow` a branch produces, and the `try_!` macro built from them.
 *
 * A residual of `Result<T, E>` is `Result<Empty, E>` (or `Result<Infallible, E>`):
 * its `Ok` side is uninhabited, so its only values are `Err(e)`.  Each residual
 * is therefore modelled as a datatype holding just the error.
 */
module AbiOps {

  /** `ControlFlow<B, C>`: keep going with `C`, or break out with `B`. */
  datatype ControlFlow<+B, +C> = Continue(cont: C) | Break(brk: B)

  /** `xlang_abi::result::Result`. */
  datatype AbiResult<+T, +E> = Ok(value: T) | Err(error: E)

  /** `core::result::Result`. */
  datatype CoreResult<+T, +E> = Ok(value: T) | Err(error: E)

  /** `xlang_abi::result::Result<Empty, E>`: the residual of an `AbiResult`. */
  datatype EmptyResidual<+E> = EmptyErr(error: E)

  /** `core::result::Result<Infallible, E>`: the residual of a `CoreResult`. */
  datatype InfallibleResidual<+E> = InfallibleErr(error: E)

  // ------------------------------------------------- Try for AbiResult

  function AbiFromOutput<T, E>(output: T): (r: AbiResult<T, E>)
  {
    AbiResult.Ok(output)
  }

  /** `branch`: an `Ok` continues with its value, an `Err` breaks with the error as residual. */
  function AbiBranch<T, E>(x: AbiResult<T, E>): (r: ControlFlow<EmptyResidual<E>, T>)
    ensures r.Continue? <==> x.Ok?
    ensures r.Continue? ==> r.cont == x.value
    ensures r.Break? ==> r.brk.error == x.error
  {
    match x
    case Ok(c) => Continue(c)
    case Err(e) => Break(EmptyErr(e))
  }

  /** `FromResidual<Result<Empty, E>>` for `AbiResult`. */
  function AbiFromResidual<T, E>(res: EmptyResidual<E>): (r: AbiResult<T, E>)
  {
    AbiResult.Err(res.error)
  }

  /** `FromResidual<core::Result<Infallible, E>>` for `AbiResult`. */
  function AbiFromInfallible<T, E>(res: InfallibleResidual<E>): (r: AbiResult<T, E>)
  {
    AbiResult.Err(res.error)
  }

  // ------------------------------------------------ Try for CoreResult

  function CoreFromOutput<T, E>(output: T): (r: CoreResult<T, E>)
  {
    CoreResult.Ok(output)
  }

  function CoreBranch<T, E>(x: CoreResult<T, E>): (r: ControlFlow<InfallibleResidual<E>, T>)
    ensures r.Continue? <==> x.Ok?
    ensures r.Continue? ==> r.cont == x.value
    ensures r.Break? ==> r.brk.error == x.error
  {
    match x
    case Ok(v) => Continue(v)
    case Err(e) => Break(InfallibleErr(e))
  }

  /** `FromResidual<core::Result<Infallible, E>>` for `CoreResult`. */
  function CoreFromResidual<T, E>(res: InfallibleResidual<E>): (r: CoreResult<T, E>)
  {
    CoreResult.Err(res.error)
  }

  /** `FromResidual<xlang_abi::Result<Empty, E>>` for `CoreResult`. */
  function CoreFromAbiResidual<T, E>(res: EmptyResidual<E>): (r: CoreResult<T, E>)
  {
    CoreResult.Err(res.error)
  }

  // ------------------------------------------------------------ try_!

  /**
   * `try_!(x)` inside a function returning `AbiResult<U, E>`: either the
   * expression evaluates to the `Ok` value (`Continue`) or the function
   * returns early with the value given here (`Break`).
   */
  function TryInAbi<T, U, E>(x: AbiResult<T, E>): (r: ControlFlow<AbiResult<U, E>, T>)
  {
    match AbiBranch(x)
    case Continue(v) => Continue(v)
    case Break(residual) => Break(AbiFromResidual(residual))
  }

  /** `try_!(x)` inside a function returning the standard `Result<U, E>`. */
  function TryInCore<T, U, E>(x: AbiResult<T, E>): (r: ControlFlow<CoreResult<U, E>, T>)
  {
    match AbiBranch(x)
    case Continue(v) => Continue(v)
    case Break(residual) => Break(CoreFromAbiResidual(residual))
  }

  // ---------------------------------------------------------- the laws

  /** Branching on a wrapped output continues with that output. */
  lemma AbiBranchFromOutput<T, E>(v: T)
    ensures AbiBranch(AbiFromOutput<T, E>(v)) == Continue(v)
  {
  }

  lemma CoreBranchFromOutput<T, E>(v: T)
    ensures CoreBranch(CoreFromOutput<T, E>(v)) == Continue(v)
  {
  }

  /** Rebuilding from the branch (the output, or the residual) gives back the original value. */
  lemma AbiBranchRebuild<T, E>(x: AbiResult<T, E>)
    ensures match AbiBranch(x)
            case Continue(v) => AbiFromOutput(v) == x
            case Break(res) => AbiFromResidual(res) == x
  {
  }

  lemma CoreBranchRebuild<T, E>(x: CoreResult<T, E>)
    ensures match CoreBranch(x)
            case Continue(v) => CoreFromOutput(v) == x
            case Break(res) => CoreFromResidual(res) == x
  {
  }

  /** `try_!` in a function returning `AbiResult<U, E>`: an `Ok` yields its value, an `Err` returns that error early. */
  lemma TryInAbiSemantics<T, U, E>(x: AbiResult<T, E>)
    ensures x.Ok? ==> TryInAbi<T, U, E>(x) == Continue(x.value)
    ensures x.Err? ==> TryInAbi<T, U, E>(x) == Break(AbiResult.Err(x.error))
  {
  }

  /** `try_!` in a function returning the standard `Result<U, E>`: the same, with the error converted. */
  lemma TryInCoreSemantics<T, U, E>(x: AbiResult<T, E>)
    ensures x.Ok? ==> TryInCore<T, U, E>(x) == Continue(x.value)
    ensures x.Err? ==> TryInCore<T, U, E>(x) == Break(CoreResult.Err(x.error))
  {
  }

  /** Converting a residual across the two `Result` types keeps its error. */
  lemma ResidualsInterconvert<T, E>(e: E)
    ensures CoreFromAbiResidual<T, E>(AbiBranch<T, E>(AbiResult.Err(e)).brk) == CoreResult.Err(e)
    ensures AbiFromInfallible<T, E>(CoreBranch<T, E>(CoreResult.Err(e)).brk) == AbiResult.Err(e)
  {
  }

  /** The crate's `test_control_flow`: `try_!(Ok(1))` evaluates to `1` in a function returning `Result<(), ()>`. */
  lemma TryControlFlowTest()
    ensures TryInCore<int, (), ()>(AbiResult.Ok(1)) == Continue(1)
  {
  }
}
