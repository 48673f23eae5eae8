/**
 * The test fixtures of the pipeline (Piping.Test/TestData: `Car`,
 * `CarWithIInvariant`, `Log`) and the outcomes the test suite expects of
 * pipelines built from them.
 */
module PipeScenarios {
  import opened Basics
  import opened Invariant
  import opened ValueAndSupplement
  import opened PipeOption
  import opened PipeBase
  import opened Option
  import opened PipeInit
  import opened PipeThen
  import opened PipeIff

  const HondaMark := "Honda"
  const ToyotaMark := "Toyota"
  const SpeedFast := 50
  const SpeedSlow := 10
  const NoSpeed := 0
  /** `CARPRICE`, 18000, in cents. */
  const CarPrice := 1800000
  const InValidError := "Car State is Invalid"

  /** A plain `Car`, or a `CarWithIInvariant` with its validity flag. */
  datatype CarKind = Plain | WithInvariant(isValid: bool)

  datatype Car = Car(mark: string, speed: int, needFuel: bool, parked: bool, price: int, kind: CarKind)

  /** `new Car()`: no mark (modelled as empty), standing, not parked, the default price. */
  function NewCar(kind: CarKind): (c: Car)
    ensures c.speed == NoSpeed && !c.needFuel && !c.parked && c.price == CarPrice && c.kind == kind
  {
    Car("", NoSpeed, false, false, CarPrice, kind)
  }

  /** Decimal digits of a natural number. */
  function NatToString(n: nat): (s: string)
    ensures |s| > 0
    decreases n
  {
    var d := [('0' as int + n % 10) as char];
    if n < 10 then d else NatToString(n / 10) + d
  }

  /** How a C# `bool` prints. */
  function BoolToString(b: bool): (s: string)
    ensures s == if b then "True" else "False"
  {
    if b then "True" else "False"
  }

  /** The `IExposeLog.Log` line of a car. */
  function CarLog(c: Car): (line: string)
    requires c.speed >= 0
    ensures |line| > 0
  {
    " Cars is of mark: " + c.mark + ", Car has a speed of: " + NatToString(c.speed)
    + ", Car need Fuel " + BoolToString(c.needFuel) + ", Car is parked: " + BoolToString(c.parked)
  }

  /** A `CarWithIInvariant` is IInvariant, with its error text; a plain car is not. */
  function CarValidity(c: Car): (inv: Invariance)
    ensures inv.Invariant? <==> c.kind.WithInvariant?
    ensures inv.Invariant? ==> (inv.isValid <==> c.kind.isValid) && (inv.error == if c.kind.isValid then "" else InValidError)
  {
    match c.kind
    case Plain => NotInvariant
    case WithInvariant(valid) => Invariant(valid, if valid then "" else InValidError)
  }

  /** Every car is an `IExposeLog` and shows the hooks its log line. */
  const CarCaps: Caps<Car> :=
    Caps(CarValidity, (c: Car) => if c.speed >= 0 then Exposed(Loggable(NonNull(CarLog(c)))) else Exposed(Loggable(NonNull(""))))

  /** A `Log` used as a channel object: an `IExposeLog` whose line is its title, null until `setLogTitle`. */
  datatype LogBook = LogBook(title: Nullable<string>)

  const LogCaps: Caps<LogBook> := Caps(_ => NotInvariant, (l: LogBook) => Exposed(Loggable(l.title)))

  /**
   * `Log.PostProcess`: it never throws; it adds the line of an `IExposeLog`,
   * null included, and nothing for any other `IExpose`.
   */
  function LogPostProcess(v: View): (r: Result<seq<Nullable<string>>>)
    ensures r.Success?
    ensures v.Bare? <==> r.value == []
    ensures v.Loggable? ==> r.value == [v.log]
  {
    Success(if v.Loggable? then [v.log] else [])
  }

  // Caller logic of the tests; each throws a NullReferenceException on a null car.

  function SetMark(m: string): Nullable<Car> -> Result<Nullable<Car>>
  {
    (x: Nullable<Car>) => if x.Null? then Failure(NullReferenceFault) else Success(NonNull(x.value.(mark := m)))
  }

  function SetSpeed(speed: int): Nullable<Car> -> Result<Nullable<Car>>
  {
    (x: Nullable<Car>) => if x.Null? then Failure(NullReferenceFault) else Success(NonNull(x.value.(speed := speed)))
  }

  const DriveFast := SetSpeed(SpeedFast)
  const DriveSlow := SetSpeed(SpeedSlow)

  const DriveFar: Nullable<Car> -> Result<Nullable<Car>> :=
    (x: Nullable<Car>) => if x.Null? then Failure(NullReferenceFault) else Success(NonNull(x.value.(needFuel := true)))

  const Park: Nullable<Car> -> Result<Nullable<Car>> :=
    (x: Nullable<Car>) => if x.Null? then Failure(NullReferenceFault) else Success(NonNull(x.value.(parked := true)))

  function IsMark(m: string): Nullable<Car> -> Result<bool>
  {
    (x: Nullable<Car>) => if x.Null? then Failure(NullReferenceFault) else Success(x.value.mark == m)
  }

  /** A fresh object is never equal to the input: `Equals` is reference equality here. */
  function NeverEqual<I, S>(): (I, S) -> bool
  {
    (_, _) => false
  }

  /** `Pipe.Init<Car, Unit>(_ => new Unit())` applied to `new Car()`. */
  function StartCar(): (r: Run<Car, Unit>)
  {
    InitFunc(CarCaps, NeverEqual(), NonNull(NewCar(Plain)), _ => Success(NonNull(Unit)), Null, [])
  }

  /** The car in a `Some` outcome of a branching test, parked, with no hooks and no flag left. */
  function Finished(mark: string, speed: int, needFuel: bool): (o: Outcome<Car, Unit>)
  {
    Some(ValueAndSupplement(NonNull(Car(mark, speed, needFuel, true, CarPrice, Plain)), NonNull(Unit)), PipeOption(Unset, Null))
  }

  /** The pipeline of iff_ExecuteFirstPredicateAndContinueAfterEndIf: one branch of two steps, then `Park`. */
  function OneBranch(mark: string): (r: Run<Car, Unit>)
  {
    var r1 := ThenValue(CarCaps, UnitCaps, StartCar(), SetMark(mark));
    var r2 := IffValue(CarCaps, UnitCaps, r1, IsMark(HondaMark));
    var r3 := ThenValueFunc(CarCaps, UnitCaps, r2, DriveFast);
    var r4 := ThenValueFunc(CarCaps, UnitCaps, r3, DriveFar);
    var r5 := EndIff(CarCaps, UnitCaps, r4);
    ThenValueFunc(CarCaps, UnitCaps, r5, Park)
  }

  /** A Honda runs both steps of the branch; any other car skips them; the step after `EndIff` runs for every car. */
  lemma OneBranchRunsOnlyForHonda(mark: string)
    ensures OneBranch(mark) == Run(if mark == HondaMark then Finished(mark, SpeedFast, true) else Finished(mark, NoSpeed, false), [])
  {
  }

  /** The Some outcome of a car pipeline with no hooks, under the given flag. */
  function CarAt(c: Car, flag: Condition): (o: Outcome<Car, Unit>)
  {
    Some(ValueAndSupplement(NonNull(c), NonNull(Unit)), PipeOption(flag, Null))
  }

  /** The two-branch Iff tests up to their first branch: mark the car, `Iff(IsHonda)`, `DriveFast`. */
  function HondaBranch(mark: string): (r: Run<Car, Unit>)
  {
    var r1 := ThenValue(CarCaps, UnitCaps, StartCar(), SetMark(mark));
    var r2 := IffValue(CarCaps, UnitCaps, r1, IsMark(HondaMark));
    ThenValueFunc(CarCaps, UnitCaps, r2, DriveFast)
  }

  /** Their second branch: `Iff(IsToyota)`, `DriveSlow`, `DriveFar`. */
  function ToyotaBranch(src: Run<Car, Unit>): (r: Run<Car, Unit>)
  {
    var r4 := IffValue(CarCaps, UnitCaps, src, IsMark(ToyotaMark));
    var r5 := ThenValueFunc(CarCaps, UnitCaps, r4, DriveSlow);
    ThenValueFunc(CarCaps, UnitCaps, r5, DriveFar)
  }

  /**
   * The pipeline of the two-branch Iff tests: both branches, closed by
   * `EndIff` or `EndIffStrong`, then `Park`.
   */
  function TwoBranches(mark: string, strong: bool): (r: Run<Car, Unit>)
  {
    var r6 := ToyotaBranch(HondaBranch(mark));
    var r7 := if strong then EndIffStrong(CarCaps, UnitCaps, r6) else EndIff(CarCaps, UnitCaps, r6);
    ThenValueFunc(CarCaps, UnitCaps, r7, Park)
  }

  /** The first branch runs for a Honda alone, and leaves the verdict of its `Iff` in force. */
  lemma HondaBranchRunsForHonda(mark: string)
    ensures HondaBranch(mark) == Run(
      if mark == HondaMark then CarAt(Car(mark, SpeedFast, false, false, CarPrice, Plain), Set(true))
      else CarAt(Car(mark, NoSpeed, false, false, CarPrice, Plain), Set(false)), [])
  {
    var r1 := ThenValue(CarCaps, UnitCaps, StartCar(), SetMark(mark));
    assert r1 == Run(CarAt(Car(mark, NoSpeed, false, false, CarPrice, Plain), Unset), []);
    var r2 := IffValue(CarCaps, UnitCaps, r1, IsMark(HondaMark));
    assert r2 == Run(CarAt(Car(mark, NoSpeed, false, false, CarPrice, Plain), Set(mark == HondaMark)), []);
  }

  /** The second branch runs for a Toyota alone, whatever the flag it finds. */
  lemma ToyotaBranchRunsForToyota(c: Car, flag: Condition)
    requires c.kind == Plain
    ensures ToyotaBranch(Run(CarAt(c, flag), [])) == Run(
      if c.mark == ToyotaMark then CarAt(c.(speed := SpeedSlow, needFuel := true), Set(true))
      else CarAt(c, Set(false)), [])
  {
    var r4 := IffValue(CarCaps, UnitCaps, Run(CarAt(c, flag), []), IsMark(ToyotaMark));
    assert r4 == Run(CarAt(c, Set(c.mark == ToyotaMark)), []);
    if c.mark == ToyotaMark {
      var r5 := ThenValueFunc(CarCaps, UnitCaps, r4, DriveSlow);
      assert r5 == Run(CarAt(c.(speed := SpeedSlow), Set(true)), []);
    }
  }

  /** The two branches together: the branch of the car's own mark runs, none for an unknown mark. */
  lemma BranchesOfMark(mark: string)
    ensures ToyotaBranch(HondaBranch(mark)) == Run(
      if mark == HondaMark then CarAt(Car(mark, SpeedFast, false, false, CarPrice, Plain), Set(false))
      else if mark == ToyotaMark then CarAt(Car(mark, SpeedSlow, true, false, CarPrice, Plain), Set(true))
      else CarAt(Car(mark, NoSpeed, false, false, CarPrice, Plain), Set(false)), [])
  {
    HondaBranchRunsForHonda(mark);
    if mark == HondaMark {
      ToyotaBranchRunsForToyota(Car(mark, SpeedFast, false, false, CarPrice, Plain), Set(true));
    } else {
      ToyotaBranchRunsForToyota(Car(mark, NoSpeed, false, false, CarPrice, Plain), Set(false));
    }
  }

  /**
   * iff_ExecuteSecondPredicateAndContinueAfterEndIf and
   * iff_NoPredicateMatchContinueExecutingAfterEndIf: each branch runs for
   * its own mark, no branch for an unknown mark, and `Park` for every car.
   */
  lemma TwoBranchesPickTheMatchingBranch(mark: string)
    ensures TwoBranches(mark, false) == Run(
      if mark == HondaMark then Finished(mark, SpeedFast, false)
      else if mark == ToyotaMark then Finished(mark, SpeedSlow, true)
      else Finished(mark, NoSpeed, false), [])
  {
    BranchesOfMark(mark);
  }

  /**
   * iff_ExecuteNoPredicateMatchReturnErrorWithStrongEndIfF: `EndIffStrong`
   * raises exactly when the last `Iff` failed, and `Park` passes the
   * exception on. It sees only the last verdict, so a Honda, matched by the
   * first `Iff`, raises too.
   */
  lemma StrongEndIffSeesOnlyTheLastIff(mark: string)
    ensures TwoBranches(mark, true).outcome.SomeException? <==> mark != ToyotaMark
    ensures mark != ToyotaMark ==>
      TwoBranches(mark, true) == Raise(Fault(InvalidOperation, EndIffStrongMessage), PipeOption(Set(false), Null), [])
    ensures mark == ToyotaMark ==>
      TwoBranches(mark, true) == Run(CarAt(Car(mark, SpeedSlow, true, true, CarPrice, Plain), Set(true)), [])
  {
    BranchesOfMark(mark);
  }

  /**
   * Init_FalslyValidateOnInitWithCallBack_ReturnsException: an invalid
   * `CarWithIInvariant` input stops the pipeline at `Init` as a Validation
   * carrying the car's error text.
   */
  lemma InvalidCarIsRefusedAtInit()
    ensures var r := InitFactory(CarCaps, UnitCaps, NeverEqual(), NonNull(NewCar(WithInvariant(false))), Success(NonNull(Unit)), Null, []);
      r.outcome.Validation? && r.outcome.result.errorMessage == InValidError && r.trace == []
  {
  }

  /** `SetError` on the car of a swapped pair: the car turns invalid and is returned. */
  const SetError: ValueAndSupplement<Car, Unit> -> Result<Call<ValueAndSupplement<Car, Unit>, Nullable<Car>>> :=
    (p: ValueAndSupplement<Car, Unit>) =>
      if p.val.Null? then Failure(NullReferenceFault)
      else
        var c := NonNull(p.val.value.(kind := WithInvariant(false)));
        Success(Call(ValueAndSupplement(c, p.supplementVal), c))

  /** A car method that returns the car it changed, as a `Func<TS, TS>`: the call leaves and returns the same car. */
  function Returning(f: Nullable<Car> -> Result<Nullable<Car>>): Nullable<Car> -> Result<Call<Nullable<Car>, Nullable<Car>>>
  {
    (c: Nullable<Car>) => match f(c)
      case Success(d) => Success(Call(d, d))
      case Failure(e) => Failure(e)
  }

  /** The Some outcome of CheckValidation's pipeline, with no hooks, under the given flag. */
  function UnitAndCar(c: Car, flag: Condition): (o: Outcome<Unit, Car>)
  {
    Some(ValueAndSupplement(NonNull(Unit), NonNull(c)), PipeOption(flag, Null))
  }

  /** CheckValidation up to `EndIff`: a `CarWithIInvariant` supplement, marked Honda, through both branches. */
  function ValidationBranches(): (r: Run<Unit, Car>)
  {
    var r0 := InitFunc(UnitCaps, NeverEqual(), NonNull(Unit), _ => Success(NonNull(NewCar(WithInvariant(true)))), Null, []);
    var r1 := ThenSupplement(UnitCaps, CarCaps, r0, SetMark(HondaMark));
    var r2 := IffSupplement(UnitCaps, CarCaps, r1, IsMark(HondaMark));
    var r3 := ThenSupplementFunc(UnitCaps, CarCaps, r2, Returning(DriveFast));
    var r4 := IffSupplement(UnitCaps, CarCaps, r3, IsMark(ToyotaMark));
    var r5 := ThenSupplementFunc(UnitCaps, CarCaps, r4, Returning(DriveSlow));
    EndIff(UnitCaps, CarCaps, r5)
  }

  /** The pipeline of CheckValidation: after the branches, `SetError` invalidates the car, then `Park`. */
  function CheckValidation(): (r: Run<Unit, Car>)
  {
    var r7 := ThenBothToSupplement(UnitCaps, CarCaps, ValidationBranches(), SetError);
    ThenSupplementFunc(UnitCaps, CarCaps, r7, Returning(Park))
  }

  /** Only the Honda branch runs on the still valid car. */
  lemma ValidCarTakesHondaBranch()
    ensures ValidationBranches() == Run(UnitAndCar(Car(HondaMark, SpeedFast, false, false, CarPrice, WithInvariant(true)), Unset), [])
  {
    var newCar := Car("", NoSpeed, false, false, CarPrice, WithInvariant(true));
    var r0 := InitFunc(UnitCaps, NeverEqual(), NonNull(Unit), _ => Success(NonNull(NewCar(WithInvariant(true)))), Null, []);
    assert r0 == Run(UnitAndCar(newCar, Unset), []);
    var r1 := ThenSupplement(UnitCaps, CarCaps, r0, SetMark(HondaMark));
    assert r1 == Run(UnitAndCar(newCar.(mark := HondaMark), Unset), []);
    var r2 := IffSupplement(UnitCaps, CarCaps, r1, IsMark(HondaMark));
    assert r2 == Run(UnitAndCar(newCar.(mark := HondaMark), Set(true)), []);
    var r3 := ThenSupplementFunc(UnitCaps, CarCaps, r2, Returning(DriveFast));
    assert r3 == Run(UnitAndCar(newCar.(mark := HondaMark, speed := SpeedFast), Set(true)), []);
    var r4 := IffSupplement(UnitCaps, CarCaps, r3, IsMark(ToyotaMark));
    assert r4 == Run(UnitAndCar(newCar.(mark := HondaMark, speed := SpeedFast), Set(false)), []);
  }

  /**
   * The car turned invalid after the branches: the outcome is a Validation
   * holding the fast, unparked car and its error text, and the later `Park`
   * did not run.
   */
  lemma InvalidatedCarStopsThePipeline()
    ensures CheckValidation().outcome.Validation?
    ensures CheckValidation().outcome.pair.supplementVal == NonNull(Car(HondaMark, SpeedFast, false, false, CarPrice, WithInvariant(false)))
    ensures CheckValidation().outcome.result.errorMessage == InValidError
  {
    ValidCarTakesHondaBranch();
  }

  /** The hooks of the post-processing tests: one `Log`, or two. */
  const OneLog: seq<Hook> := [Hook(0, LogPostProcess)]
  const TwoLogs: seq<Hook> := [Hook(0, LogPostProcess), Hook(1, LogPostProcess)]

  /** PostProcessing_Success(Multiple): `Init<Unit, Car>(_ => new Car(), hooks)` then `Then(c => c.Mark = Honda)`. */
  function MarkWithHooks(hooks: seq<Hook>): (r: Run<Unit, Car>)
  {
    var r0 := InitFunc(UnitCaps, NeverEqual(), NonNull(Unit), _ => Success(NonNull(NewCar(Plain))), NonNull(hooks), []);
    ThenSupplement(UnitCaps, CarCaps, r0, SetMark(HondaMark))
  }

  /**
   * `Init` runs no hook; the `Then` step runs every hook once on the car
   * (the `Unit` value is not exposed), so each `Log` holds one line.
   */
  lemma EachHookLogsTheCarOnce()
    ensures var car := Car(HondaMark, NoSpeed, false, false, CarPrice, Plain);
      MarkWithHooks(OneLog) == Run(Some(ValueAndSupplement(NonNull(Unit), NonNull(car)), PipeOption(Unset, NonNull(OneLog))),
                                   [LogEntry(0, NonNull(CarLog(car)))])
      && MarkWithHooks(TwoLogs) == Run(Some(ValueAndSupplement(NonNull(Unit), NonNull(car)), PipeOption(Unset, NonNull(TwoLogs))),
                                       [LogEntry(0, NonNull(CarLog(car))), LogEntry(1, NonNull(CarLog(car)))])
  {
    var car := Car(HondaMark, NoSpeed, false, false, CarPrice, Plain);
    var view := Loggable(NonNull(CarLog(car)));
    assert Recorded(OneLog, view) == [LogEntry(0, NonNull(CarLog(car)))];
    assert Recorded(TwoLogs, view) == [LogEntry(0, NonNull(CarLog(car))), LogEntry(1, NonNull(CarLog(car)))];
    forall hooks | hooks == OneLog || hooks == TwoLogs
      ensures MarkWithHooks(hooks) == Run(Some(ValueAndSupplement(NonNull(Unit), NonNull(car)), PipeOption(Unset, NonNull(hooks))),
                                          Recorded(hooks, view))
    {
      var ctx := PipeOption(Unset, NonNull(hooks));
      WrapWhenHooksAccept(UnitCaps, CarCaps, NonNull(Unit), NonNull(car), ctx, []);
    }
  }

  /** PostProcessing_NoneWhenException: a throwing step gives an exception and no hook runs. */
  lemma ThrowingStepLogsNothing()
    ensures var r0 := InitFunc(UnitCaps, NeverEqual(), NonNull(Unit), _ => Success(NonNull(NewCar(Plain))), NonNull(OneLog), []);
      var r := ThenSupplementFunc(UnitCaps, CarCaps, r0, _ => Failure(Fault(Other("Exception"), "s")));
      r == Raise(Fault(InvalidOperation, "s"), PipeOption(Unset, NonNull(OneLog)), [])
  {
  }

  /** `setLogTitle` on the log of a swapped pair, which is returned. */
  const SetTitle: ValueAndSupplement<Car, LogBook> -> Result<Call<ValueAndSupplement<Car, LogBook>, Nullable<LogBook>>> :=
    (p: ValueAndSupplement<Car, LogBook>) =>
      if p.supplementVal.Null? then Failure(NullReferenceFault)
      else
        var l := NonNull(LogBook(NonNull("My title")));
        Success(Call(ValueAndSupplement(p.val, l), l))

  /** PostProcessing_SuccessOnValAndSupplemendedVal: a `Log` value and a `Car` supplement, two steps. */
  function LogAndCar(): (r: Run<LogBook, Car>)
  {
    var r0 := InitFunc(LogCaps, NeverEqual(), NonNull(LogBook(Null)), _ => Success(NonNull(NewCar(Plain))), NonNull(OneLog), []);
    var r1 := ThenSupplement(LogCaps, CarCaps, r0, SetMark(HondaMark));
    ThenBothToValue(LogCaps, CarCaps, r1, SetTitle)
  }

  /**
   * Both channels are exposed, so each of the two steps logs two lines: four
   * in all, value first; the first line is the log's title, still null.
   */
  lemma BothChannelsAreLogged()
    ensures var car := Car(HondaMark, NoSpeed, false, false, CarPrice, Plain);
      LogAndCar() == Run(Some(ValueAndSupplement(NonNull(LogBook(NonNull("My title"))), NonNull(car)), PipeOption(Unset, NonNull(OneLog))),
                         [LogEntry(0, Null), LogEntry(0, NonNull(CarLog(car))), LogEntry(0, NonNull("My title")),
                          LogEntry(0, NonNull(CarLog(car)))])
    ensures |LogAndCar().trace| == 4
  {
  }
}
