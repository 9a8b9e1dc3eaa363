/** The command objects of Assets/Game/Scripts/Core/UI/Commands/RelayCommand.cs:
    `RelayCommand` and `RelayCommand<T>`, their constructors, `CanExecute` and
    `Execute`. Delegates are values: an action is an opaque reference, a guard
    answers from the parameter; a parameterless `Func<bool>` is taken to give the
    same answer on every call. A parameter is null or an object of
    which it is known whether it is a `T`. */
module Commands {
  import opened Wrappers

  type ActionRef(==, !new)
  type Value(==, !new)

  /** The `object parameter` of `CanExecute`/`Execute`; `isT` says whether the
      object is an instance of the command's `T` (for `RelayCommand<T>`). */
  datatype Param = Null | Val(value: Value, isT: bool)

  /** The type argument `T` of `RelayCommand<T>`; only `IsValueType` matters. */
  datatype TypeArg = TypeArg(isValueType: bool)

  /** `_execute`: either the given `Action<object>`/`Action<T>`, or the lambda
      `p => execute()` around a parameterless `Action` (which may be null). */
  datatype Execute = Direct(action: ActionRef) | Parameterless(inner: Option<ActionRef>)

  /** `_canExecute`: a predicate on the parameter, or the lambda `p => canExecute()`
      with the one answer the model's `canExecute()` gives on every call. */
  datatype Guard = OnParam(test: Param -> bool) | Ignoring(answer: bool)

  datatype Command = Command(execute: Execute, canExecute: Option<Guard>)
  datatype GenericCommand = GenericCommand(t: TypeArg, execute: Execute, canExecute: Option<Guard>)

  /** The exceptions the constructors and `Execute` throw. */
  datatype Failure = ArgumentNull | Argument | NullReference

  /** What a call of `Execute` does: one call of an action, or an exception. */
  datatype Run =
    | Invoked(action: ActionRef, arg: Param)
    | InvokedParameterless(action: ActionRef)
    | Threw(failure: Failure)

  function Ask(g: Guard, p: Param): bool {
    match g
    case OnParam(test) => test(p)
    case Ignoring(answer) => answer
  }

  /** Calling `_execute(p)` once. */
  function RunAction(e: Execute, p: Param): (r: Run)
    ensures r.Threw? <==> e == Parameterless(None)
    ensures e.Direct? ==> r == Invoked(e.action, p)
  {
    match e
    case Direct(a) => Invoked(a, p)
    case Parameterless(inner) =>
      if inner.Some? then InvokedParameterless(inner.value) else Threw(NullReference)
  }

  // ---------------------------------------------------------------------------
  // RelayCommand
  // ---------------------------------------------------------------------------

  /** `RelayCommand(Action<object> execute, Predicate<object> canExecute = null)`. */
  function NewCommand(execute: Option<ActionRef>, canExecute: Option<Param -> bool>): (r: Result<Command, Failure>)
    ensures r.Failure? <==> execute.None?
    ensures r.Failure? ==> r.error == ArgumentNull
    ensures r.Success? ==> r.value.execute == Direct(execute.value)
  {
    if execute.None? then Failure(ArgumentNull)
    else Success(Command(Direct(execute.value), if canExecute.Some? then Some(OnParam(canExecute.value)) else None))
  }

  /** `RelayCommand(Action execute, Func<bool> canExecute = null)`; `answer` is
      what the given `Func<bool>` returns on every call, or null for no guard. A null `execute` is accepted. */
  function NewParameterless(execute: Option<ActionRef>, answer: Option<bool>): (r: Command)
    ensures r.execute == Parameterless(execute)
    ensures r.canExecute.None? <==> answer.None?
  {
    Command(Parameterless(execute), if answer.Some? then Some(Ignoring(answer.value)) else None)
  }

  /** `RelayCommand.CanExecute(parameter)`. */
  function CanExecute(c: Command, p: Param): (r: bool)
    ensures c.canExecute.None? ==> r
    ensures c.canExecute.Some? ==> r == Ask(c.canExecute.value, p)
  {
    c.canExecute.None? || Ask(c.canExecute.value, p)
  }

  /** `RelayCommand.Execute(parameter)`: runs the action whatever the guard says. */
  function CommandExecute(c: Command, p: Param): Run {
    RunAction(c.execute, p)
  }

  // ---------------------------------------------------------------------------
  // RelayCommand<T>
  // ---------------------------------------------------------------------------

  /** `RelayCommand<T>(Action<T> execute, Predicate<T> canExecute = null)`. */
  function NewGeneric(t: TypeArg, execute: Option<ActionRef>, canExecute: Option<Param -> bool>): (r: Result<GenericCommand, Failure>)
    ensures r.Failure? <==> execute.None?
    ensures r.Failure? ==> r.error == ArgumentNull
    ensures r.Success? ==> r.value.t == t && r.value.execute == Direct(execute.value)
  {
    if execute.None? then Failure(ArgumentNull)
    else Success(GenericCommand(t, Direct(execute.value), if canExecute.Some? then Some(OnParam(canExecute.value)) else None))
  }

  /** `RelayCommand<T>(Action execute, Func<bool> canExecute = null)`. */
  function NewGenericParameterless(t: TypeArg, execute: Option<ActionRef>, answer: Option<bool>): (r: GenericCommand)
    ensures r.t == t && r.execute == Parameterless(execute)
    ensures r.canExecute.None? <==> answer.None?
  {
    GenericCommand(t, Parameterless(execute), if answer.Some? then Some(Ignoring(answer.value)) else None)
  }

  /** `RelayCommand<T>.CanExecute(parameter)`. */
  function GenericCanExecute(c: GenericCommand, p: Param): bool {
    if c.canExecute.None? then true
    else if p.Null? then !c.t.isValueType
    else if p.isT then Ask(c.canExecute.value, p)
    else false
  }

  /** `RelayCommand<T>.Execute(parameter)`. */
  function GenericExecute(c: GenericCommand, p: Param): Run {
    if p.Null? && c.t.isValueType then Threw(Argument)
    else if p.Val? && p.isT then RunAction(c.execute, p)
    else Threw(Argument)
  }

  // ---------------------------------------------------------------------------
  // Properties
  // ---------------------------------------------------------------------------

  /** Without a guard, the generic command can execute anything. */
  lemma GenericUnguarded(c: GenericCommand, p: Param)
    requires c.canExecute.None?
    ensures GenericCanExecute(c, p)
  {
  }

  /** With a guard, null is accepted iff `T` is a reference type, and the guard is
      not consulted; an object that is not a `T` is refused; a `T` is decided by
      the guard. */
  lemma GenericGuarded(c: GenericCommand, p: Param)
    requires c.canExecute.Some?
    ensures p.Null? ==> (GenericCanExecute(c, p) <==> !c.t.isValueType)
    ensures p.Val? && !p.isT ==> !GenericCanExecute(c, p)
    ensures p.Val? && p.isT ==> GenericCanExecute(c, p) == Ask(c.canExecute.value, p)
  {
  }

  /** `Execute` throws for null when `T` is a value type, for null when it is not,
      and for any object that is not a `T`; on a `T` it runs the action once. */
  lemma GenericExecuteCases(c: GenericCommand, p: Param)
    ensures p.Null? ==> GenericExecute(c, p) == Threw(Argument)
    ensures p.Val? && !p.isT ==> GenericExecute(c, p) == Threw(Argument)
    ensures p.Val? && p.isT ==> GenericExecute(c, p) == RunAction(c.execute, p)
  {
  }

  /** For a reference type `T` with a guard, `CanExecute(null)` is true while
      `Execute(null)` throws. */
  lemma NullAllowedButThrows(c: GenericCommand)
    requires !c.t.isValueType && c.canExecute.Some?
    ensures GenericCanExecute(c, Null)
    ensures GenericExecute(c, Null).Threw?
  {
  }

  /** A constructed object-taking command runs its action on the very parameter. */
  lemma ConstructedRuns(execute: ActionRef, canExecute: Option<Param -> bool>, p: Param)
    ensures NewCommand(Some(execute), canExecute).Success?
    ensures CommandExecute(NewCommand(Some(execute), canExecute).value, p) == Invoked(execute, p)
    ensures canExecute.None? ==> CanExecute(NewCommand(Some(execute), canExecute).value, p)
    ensures canExecute.Some? ==> CanExecute(NewCommand(Some(execute), canExecute).value, p) == canExecute.value(p)
  {
  }

  /** The parameterless constructors do not reject a null action: the command
      exists, and `Execute` then throws a null reference. */
  lemma ParameterlessNull(answer: Option<bool>, p: Param)
    ensures CommandExecute(NewParameterless(None, answer), p) == Threw(NullReference)
    ensures answer.Some? ==> CanExecute(NewParameterless(None, answer), p) == answer.value
  {
  }
}
