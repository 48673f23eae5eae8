# Piping — a verified model of the pipeline engine

Piping is a small .NET library for building pipelines. `Pipe.Init` starts a pipeline from an input
object and builds a second, "supplemented" object beside it. Every later segment (`Then`,
`Transform`, `Iff`, `Else`, `EndIff`, `EndIffStrong`) takes the outcome of the segment before it
and gives a new outcome. An outcome is one of four: `Some` (a value and a supplement), `None`,
`SomeException` (a caught exception) or `Validation` (an `IInvariant` object reported itself
invalid). An outcome also carries a branch flag (`ConditionIsMet`, unset, true or false) and a list
of post-processing hooks. Every successful wrap calls the hooks on both channels.

This project models that engine in Dafny and proves properties of it. It also models the example
shop that uses it: a keyed repository, a stock query and a price rule.

How the model is built:

- **Outcomes.** `Option.Outcome` holds the four variants. `Option.Run` pairs an outcome with
  everything the hooks have appended to their own logs (`PipeBase.Trace`). A hook's `PostProcess`
  is handed the view of the `IExpose` object (a bare `IExpose`, or an `IExposeLog` with its
  possibly null `Log` line). It appends any number of lines, each a `LogEntry(hook, line)`, or it
  throws. The test `Log` hook (`PipeScenarios.LogPostProcess`) appends the line of an
  `IExposeLog`, null included, and nothing for any other `IExpose`.
- **Segments.** Each segment overload is a function from the input `Run` to the output `Run`.
  Caller delegates are functions returning `Result`; a `Failure` is a thrown exception.
- **Mutation.** A delegate that mutates its argument in place returns the argument's new state.
  A `Func` that both mutates and returns gives a `Call(after, ret)`.
- **Types.** `IInvariant` and `IExpose` are type tests in C#. Here they are a `Caps` record passed
  to each segment: the object's validity and the log line it exposes.
- **Nulls.** `null` and `default` are `Null` of `Basics.Nullable`.
- **Hook loop.** The hook loop of `PipeBase.ExecuteExtensions` is an imperative method. It is proved
  equal to the specification function `PipeBase.Extensions`, which the functional model uses.
- **Repository.** `Repository.DBContext` and `Repository.Repository` are classes. The shared
  dictionary is a `map` field that `Save` updates in place.

Behaviours of the source that the model keeps, and proves as properties:

- **`None` is not treated as an end.** `ContinuePipeLineEntry` compares the runtime type with the
  abstract `Option<,>`, which never matches. A `None` therefore continues with two null channels
  and faults at the next wrap (`PipeLaws.NoneFaultsAtTheNextStep`).
- **Flags.** An `Iff` replaces the flag it finds (`PipeLaws.IffIgnoresIncomingFlag`). `Else`
  always sets the flag to true (`PipeLaws.ElseAlwaysRuns`).
- **`EndIffStrong` sees only the last `Iff`.** It raises whenever the last `Iff` failed. The
  example in its own doc comment is a Honda that the first `Iff` matches and the second does not,
  and that example raises (`PipeScenarios.StrongEndIffSeesOnlyTheLastIff`).
- **`Transform` reads only the channels of the inner pipeline's outcome.** An inner exception
  comes out as the null-channels fault. An inner validation failure comes out as `Some`
  (`PipeLaws.TransformMasksInnerOutcome`).
- **The stock query sorts by distance, descending.** The "nearest" location it returns is the
  farthest matching one (`StockService.NearestIsFarthestMatch`).

## Model

| member | source | states |
|---|---|---|
| Invariant.ToValidationResult | Piping/IInvariant.cs:14 | the validation result carries the object's current error text |
| OptionType.Code | Piping/Option.cs:8-14 | the enum's values: None 0, Some 1, Exception 2, Validation 3, each tag with its own code |
| ValueAndSupplementType.PipeType | Piping/IValueAndSupplementType.cs:7-12 | None has code 0, Some code 1 and Exception code 2, each stated as an iff, and no code lies outside 0..2 |
| ValueAndSupplementType.ToValueAndSupplementType | Piping/IValueAndSupplementType.cs:21-35 | a code from 0 to 2 maps back to the type with that code; every other code maps to None |
| ValueAndSupplementType.CodeRoundTrip | Piping/IValueAndSupplementType.cs:21-35 | converting a type's code back gives the same type |
| ValueAndSupplementType.CodeKeptIffDeclared | Piping/IValueAndSupplementType.cs:21-35 | a code survives the round trip exactly when it is 0, 1 or 2 |
| ValueAndSupplement.Swapped | Piping/Option.cs:189-195 | the swapping entry builds the pair with its channels exchanged |
| ValueAndSupplement.SwappedInvolution | Piping/Option.cs:166-197 | exchanging the channels twice restores the pair |
| ValueAndSupplement.Nulls | Piping/Option.cs:155-162 | the converting entry hands over a pair of two nulls |
| Option.GetOptionType | Piping/Option.cs:36 | the tag names exactly the outcome's variant |
| Option.Val | Piping/Option.cs:258-275 | Some and Validation give their value; None and SomeException give null |
| Option.SupplementVal | Piping/Option.cs:239-256 | Some and Validation give their supplement; None and SomeException give null |
| Option.ExceptionVal | Piping/Option.cs:277-285 | succeeds exactly on SomeException, with its exception; otherwise throws InvalidOperationException |
| Option.ValidationResultOf | Piping/Option.cs:287-295 | succeeds exactly on Validation, with its result; otherwise throws InvalidOperationException |
| Option.Current | Piping/Option.cs:199-230 | a continuing step reads the Some pair, or two nulls after an unrecognised None |
| Option.TestInputIsInvariant | Piping/Option.cs:38-41 | true exactly for a non-null IInvariant input that reports itself invalid |
| Option.ValidateIsValid | Piping/Option.cs:43-57 | passes exactly when neither channel is an invalid IInvariant object; otherwise gives a Validation of the same pair with an empty context, reporting the value's error first |
| Option.Raise | Piping/Option.cs:64-67 | an exception outcome with the given exception and context, nothing logged |
| Option.HooksOnBoth | Piping/Option.cs:89-97 | hooks run on the value first; a hook exception there stops before the supplement |
| Option.WrapPipeLineResult | Piping/Option.cs:78-99 | both channels null, or the supplement null, gives its own InvalidOperationException; otherwise Some of exactly that pair once the hooks ran, or the hook's exception; the context is always kept |
| Option.WrapPipeLineResultInit | Piping/Option.cs:101-125 | a factory exception, a null input and a result equal to the input become exceptions; otherwise the hooks run on both channels and their exception becomes the outcome, else a null result gives None and a non-null one Some(input, result), with the hooks' lines logged |
| Option.ContinuePipeLineEntry | Piping/Option.cs:199-230 | an exception or a validation failure breaks unchanged; Some and None continue with the current pair and the input's context |
| Option.ContinuePipeLineEntrySwap | Piping/Option.cs:166-197 | the same, with the pair of a continuing or invalid outcome exchanged |
| Option.ContinuePipeLineEntryConvert | Piping/Option.cs:127-164 | an exception breaks unchanged; a validation failure keeps its result but not its pair (the source's cast throws instead when a channel type changes; see Left out); a continuing step gets two nulls |
| Option.WrapWhenHooksAccept | Piping/Option.cs:78-99 | when every hook returns normally on both channels, a wrap of a non-null supplement is Some of exactly that pair, with the value's lines logged before the supplement's |
| Option.WrapRecordsBothChannels | Piping/Option.cs:89-98 | with hooks that append one line per call and two exposed channels, every hook logs the value and then the supplement: twice the hook count in entries |
| Option.WrapWithoutObserversIsSilent | Piping/Option.cs:78-99 | with no hooks or nothing exposed, a wrap of a non-null supplement is Some and logs nothing |
| PipeBase.PostProcessAll | Piping/PipeBase.cs:100-106 | the log only grows; the hooks' list order and the stop at the first throw are specified by PostProcessAllCompletes and PostProcessAllStops |
| PipeBase.Recorded | Piping/PipeBase.cs:100-106 | hooks that never throw append their lines hook by hook, in list order: one entry per hook when each appends one line, none when each appends none |
| PipeBase.PostProcessAllCompletes | Piping/PipeBase.cs:100-106 | when no hook throws, the loop completes with every hook's entry appended |
| PipeBase.PostProcessAllStops | Piping/PipeBase.cs:100-106 | the first hook that throws ends the loop: the hooks before it logged, none after it |
| PipeBase.Extensions | Piping/PipeBase.cs:90-108 | a null value, a null hook list or a value that is not exposed logs nothing |
| PipeBase.ExtensionsWhenAccepted | Piping/PipeBase.cs:90-108 | when every hook returns normally on the value, the loop completes and appends exactly the hooks' lines for it |
| PipeBase.ExtensionsAppendOnePerHook | Piping/PipeBase.cs:98-107 | an exposed value whose hooks each append one line makes every hook log exactly one entry |
| PipeBase.ExecuteExtensions | Piping/PipeBase.cs:90-108 | the loop over the hooks computes exactly the specified effect |
| PipeInit.InvalidInput | Piping/Pipe.cs:91-94 | an invalid input gives a Validation with that input, the object's error text and an empty context |
| PipeInit.InitUnit | Piping/Pipe.cs:78-103 | Validation for an invalid input; an exception for a null input or an equal new object; otherwise Some(input, Unit) exactly when the hooks complete, and the hook's own exception when one throws |
| PipeInit.InitHooksAsWritten | Piping/Pipe.cs:39-65 | as written: an invalid input starts the pipeline as Some with the hooks dropped |
| PipeInit.InitHooksAsWrittenLetsInvalidThrough | Piping/Pipe.cs:53-56 | the hook form lets an invalid input through that the other Init forms refuse |
| PipeInit.InitFactory | Piping/Pipe.cs:117-184 | Validation without calling the factory for an invalid input; the factory's exception, a null input and an equal object become exceptions; otherwise a hook's exception, else None for a null object and Some of both objects for a non-null one |
| PipeInit.InitFunc | Piping/Pipe.cs:212-272 | no hook runs; Some exactly for a valid non-null input whose new object is non-null and different; None exactly for a null new object |
| PipeInit.NullInputNeverStarts | Piping/Pipe.cs:39-272 | every Init turns a null input into an exception |
| PipeThen.Rewrapped | Piping/Pipe.cs:1086-1089 | the re-thrown exception is an InvalidOperationException with the caller's message |
| PipeThen.Conclude | Piping/Pipe.cs:1079-1091 | a pair that fails validation is returned as its Validation; otherwise the new pair is wrapped |
| PipeThen.ThenBothSwapped | Piping/Pipe.cs:767-796 | the action sees both channels and the pipeline continues exchanged; skipped, the channels only swap |
| PipeThen.ThenBoth | Piping/Pipe.cs:807-876 | the action's result pair is checked and wrapped; skipped, the pair is wrapped unchanged; its exception passes as it is |
| PipeThen.ThenBothToValueAsWritten | Piping/Pipe.cs:887-919 | as written: a skipped step wraps the value the shared variable holds, stale or null; a running or passed-on step is the corrected overload's, and the variable keeps the latest result |
| PipeThen.ThenBothToValue | Piping/Pipe.cs:887-919 | the result becomes the value, the pair the call left is checked; skipped, the pair is kept |
| PipeThen.ThenBothToSupplementAsWritten | Piping/Pipe.cs:930-962 | as written: a skipped step wraps a null supplement; a running or passed-on step is the corrected overload |
| PipeThen.ThenBothToSupplement | Piping/Pipe.cs:930-962 | the result becomes the supplement and the new pair is checked; skipped, the pair is kept |
| PipeThen.ThenSupplementToValueAsWritten | Piping/Pipe.cs:977-1007 | as written: a skipped step wraps a null new channel; a running or passed-on step is the corrected overload |
| PipeThen.ThenSupplementToValue | Piping/Pipe.cs:977-1007 | the pipeline continues as (supplement, result); skipped, the channels only swap |
| PipeThen.ThenValueToSupplementAsWritten | Piping/Pipe.cs:1018-1048 | as written: a skipped step wraps a null supplement; a running or passed-on step is the corrected overload |
| PipeThen.ThenValueToSupplement | Piping/Pipe.cs:1018-1048 | the result becomes the supplement, the old pair as the call left it is checked; skipped, the pair is kept |
| PipeThen.ThenSupplementFunc | Piping/Pipe.cs:1064-1093 | the supplement as the call left it is checked and kept, the returned object discarded; exceptions become InvalidOperationException |
| PipeThen.ThenSupplement | Piping/Pipe.cs:1104-1133 | the supplement the action leaves is checked and kept |
| PipeThen.ThenValueFunc | Piping/Pipe.cs:1148-1183 | the returned object becomes the value; under a false Iff the value is kept and still checked |
| PipeThen.ThenValue | Piping/Pipe.cs:1194-1223 | the value the action leaves is checked and kept |
| PipeIff.Branch | Piping/Pipe.cs:1253-1259 | the verdict becomes the flag, the hooks are kept |
| PipeIff.IffBoth | Piping/Pipe.cs:1238-1268 | the predicate on the pair sets the flag and the pair is wrapped again; a throwing predicate gives InvalidOperationException in the same context |
| PipeIff.IffValue | Piping/Pipe.cs:1279-1309 | the same, with the predicate on the value |
| PipeIff.IffSupplement | Piping/Pipe.cs:1320-1350 | the same, with the predicate on the supplement; the exception of a throwing predicate loses flag and hooks |
| PipeIff.Else | Piping/Pipe.cs:1360-1367 | the flag becomes true, whatever it was |
| PipeIff.EndIff | Piping/Pipe.cs:1378-1394 | the flag becomes unset, so later steps run; pair and hooks kept |
| PipeIff.EndIffStrong | Piping/Pipe.cs:1416-1439 | a false flag raises the EndIffStrong InvalidOperationException; otherwise the pair is wrapped and the flag kept |
| PipeTransform.TransformSupplement | Piping/Pipe.cs:288-321 | the supplement is replaced by its conversion; the conversion's exception becomes the outcome; an outer exception or validation failure passes on |
| PipeTransform.TransformValue | Piping/Pipe.cs:333-363 | the value is replaced by its conversion, the same otherwise |
| PipeTransform.Feed | Piping/Pipe.cs:520-540 | the inner pipeline's channels, with the supplement as onValue left it, are wrapped in the outer context after the inner log |
| PipeTransform.TransformValuePipeline | Piping/Pipe.cs:505-542 | the converted value runs through the inner pipeline and onValue sees the old supplement |
| PipeTransform.TransformValuePipelineOnValue | Piping/Pipe.cs:557-592 | the same, with onValue seeing the old value as the conversion left it |
| PipeTransform.TransformSupplementPipeline | Piping/Pipe.cs:609-646 | the converted supplement runs through the inner pipeline |
| PipeTransform.TransformOutcomePipeline | Piping/Pipe.cs:661-699 | the conversion reads the whole outcome; a failing pipeline factory, called after it, becomes the outcome |
| PipeTransform.ThenSupplementPipelineFactory | Piping/Pipe.cs:716-752 | the converted supplement runs through a pipeline the factory builds |
| PipeTransform.TransformSupplementInit | Piping/Pipe.cs:377-388 | the converted supplement and the factory object become a fresh Init's pair, in the outer context |
| PipeTransform.TransformValueInit | Piping/Pipe.cs:402-413 | the same from the value |
| PipeTransform.TransformValueInto | Piping/Pipe.cs:428-439 | the inner pipeline's pair on the converted value, in the outer context |
| PipeTransform.TransformSupplementInto | Piping/Pipe.cs:454-464 | the same from the supplement |
| PipeLaws.Apply | Piping/Pipe.cs:767-1439 | every same-typed step passes an exception or a validation failure on and only appends to the log |
| PipeLaws.RunSteps | Piping/Pipe.cs:767-1439 | a chain of steps only appends to the log |
| PipeLaws.ExceptionIsTerminal | Piping/Option.cs:217-221 | after an exception every later step passes the same exception on and logs nothing |
| PipeLaws.ValidationIsTerminal | Piping/Option.cs:222-226 | after a validation failure every later step returns it unchanged |
| PipeLaws.RunStepsAppend | Piping/Pipe.cs:767-1439 | running two chains in turn is running their concatenation |
| PipeLaws.SkippedStepsChangeNothing | Piping/Pipe.cs:807-1223 | under a false Iff the corrected same-typed overloads keep the outcome of a Some pipeline whose hooks return normally, only logging its channels again; without hooks nothing changes |
| PipeLaws.SkippedSwapsRoundTrip | Piping/Pipe.cs:767-1007 | skipped swapping overloads only exchange the channels, the hooks logging the new value first; two of them restore the outcome |
| PipeLaws.SkippedBothToSupplementFaultsAsWritten | Piping/Pipe.cs:930-962 | as written, a skipped step faults where the corrected one returns its input |
| PipeLaws.SkippedValueToSupplementFaultsAsWritten | Piping/Pipe.cs:1018-1048 | the same for Then(Func<TV, TS>) |
| PipeLaws.SkippedSupplementToValueFaultsAsWritten | Piping/Pipe.cs:977-1007 | the same for Then(Func<TS, TV>), whose corrected form only swaps |
| PipeLaws.SkippedBothToValueUsesStaleValueAsWritten | Piping/Pipe.cs:887-919 | as written, a skipped step replaces the value with the captured one |
| PipeLaws.ElseAlwaysRuns | Piping/Pipe.cs:1360-1367 | Else switches the branch on whatever the Iff before it decided |
| PipeLaws.IffIgnoresIncomingFlag | Piping/Pipe.cs:1279-1309 | an Iff's verdict replaces the flag it finds |
| PipeLaws.NoneFaultsAtTheNextStep | Piping/Option.cs:212-216 | a None is not recognised, so the next step faults on two null channels |
| PipeLaws.TransformMasksInnerOutcome | Piping/Pipe.cs:520-540 | an inner exception becomes the null-channels fault; an inner validation failure becomes Some |
| PipeLaws.TransformSupplementInitPairs | Piping/Pipe.cs:377-388 | on a quiet pipeline the converted supplement and the factory object form the new pair and nothing is logged |
| PipeScenarios.NewCar | Piping.Test/TestData/Car.cs:27-30 | a new car stands, needs no fuel, is not parked and has the default price |
| PipeScenarios.NatToString | Piping.Test/TestData/Car.cs:21 | a speed prints as a non-empty digit string |
| PipeScenarios.BoolToString | Piping.Test/TestData/Car.cs:21 | a flag prints as True or False |
| PipeScenarios.CarLog | Piping.Test/TestData/Car.cs:21 | a car exposes a non-empty log line |
| PipeScenarios.LogPostProcess | Piping.Test/TestData/Log.cs:19-23 | the Log hook never throws, appends nothing for an IExpose that is not IExposeLog, and exactly the (possibly null) line of an IExposeLog |
| PipeScenarios.CarValidity | Piping.Test/TestData/CarWithIInvariant.cs:9-33 | only a CarWithIInvariant is IInvariant; its error is empty when valid and the InValidError text otherwise |
| PipeScenarios.OneBranchRunsOnlyForHonda | Piping.Test/PipingIffTest.cs:67-85 | a Honda runs both branch steps, any other car none; every car is parked after EndIff |
| PipeScenarios.HondaBranchRunsForHonda | Piping.Test/PipingIffTest.cs:14-28 | the first branch runs for a Honda alone and leaves its verdict as the flag |
| PipeScenarios.ToyotaBranchRunsForToyota | Piping.Test/PipingIffTest.cs:47-64 | the second branch runs for a Toyota alone, whatever flag it finds |
| PipeScenarios.BranchesOfMark | Piping.Test/PipingIffTest.cs:87-110 | the branch of the car's own mark runs, none for an unknown mark |
| PipeScenarios.TwoBranchesPickTheMatchingBranch | Piping.Test/PipingIffTest.cs:87-132 | with EndIff, each mark gets its own branch's speed and fuel, and every car is parked |
| PipeScenarios.StrongEndIffSeesOnlyTheLastIff | Piping.Test/PipingIffTest.cs:134-151 | with EndIffStrong the pipeline raises exactly when the last Iff failed, a Honda included |
| PipeScenarios.InvalidCarIsRefusedAtInit | Piping.Test/PipingIInvariantTest.cs:15-27 | an invalid car input gives a Validation with the InValidError text |
| PipeScenarios.ValidCarTakesHondaBranch | Piping.Test/PipingIInvariantTest.cs:29-38 | the valid car takes the Honda branch only |
| PipeScenarios.InvalidatedCarStopsThePipeline | Piping.Test/PipingIInvariantTest.cs:29-50 | once SetError runs, the outcome is a Validation of the fast, unparked car with the InValidError text |
| PipeScenarios.EachHookLogsTheCarOnce | Piping.Test/PipingPostProcessingTest.cs:14-81 | Init logs nothing and the Then step logs the car once per hook |
| PipeScenarios.ThrowingStepLogsNothing | Piping.Test/PipingPostProcessingTest.cs:33-58 | a throwing step gives an InvalidOperationException and no hook runs |
| PipeScenarios.BothChannelsAreLogged | Piping.Test/PipingPostProcessingTest.cs:83-107 | two steps with two exposed channels log four entries, value first: the log's null title, then the new title |
| Repository.Lookup | Piping.Example/ExampleBusiness/Repository.cs:27-31 | non-null exactly when the key is stored, and then the stored object |
| Repository.KeyOf | Piping.Example/ExampleBusiness/Repository.cs:36-37 | an object is filed under its own id and runtime type |
| Repository.Saved | Piping.Example/ExampleBusiness/Repository.cs:37-45 | the object's key maps to it, whether or not it was there, and every other entry stays |
| Repository.DBContext.constructor | Piping.Example/ExampleBusiness/DBContext.cs:22 | the storage starts empty |
| Repository.Repository.constructor | Piping.Example/ExampleBusiness/Repository.cs:21-23 | a repository for one type argument over the shared context |
| Repository.Repository.GetByID | Piping.Example/ExampleBusiness/Repository.cs:25-32 | returns the object stored under the id and the type argument, or null; in a well-filed storage it has that id and type |
| Repository.Repository.Save | Piping.Example/ExampleBusiness/Repository.cs:34-46 | a null object throws and changes nothing; otherwise the storage becomes the saved storage, and a well-filed storage stays well filed |
| Repository.SaveThenGetRoundTrip | Piping.Example/ExampleBusiness/Repository.cs:25-46 | a saved object is found by a repository of its runtime type |
| Repository.SaveChangesOnlyItsKey | Piping.Example/ExampleBusiness/Repository.cs:34-46 | a save changes no lookup under another key |
| Repository.SaveUnderOtherTypeIsNotFound | Piping.Example/ExampleBusiness/Repository.cs:25-46 | a repository whose type argument is not the object's runtime type does not see the saved object |
| Repository.SaveIsUpsert | Piping.Example/ExampleBusiness/Repository.cs:37-45 | saving twice is saving once; the entry count grows by one exactly when the key is new |
| PriceService.AddTransportPriceForForeignAddress | Piping.Example/ExampleBusiness/PriceService.cs:13-19 | the foreign fee is charged exactly when the countries differ, and nothing otherwise |
| PriceService.FeeIsSymmetric | Piping.Example/ExampleBusiness/PriceService.cs:13-19 | the fee does not depend on which address is which |
| PriceService.FeeDependsOnlyOnCountries | Piping.Example/ExampleBusiness/PriceService.cs:13-19 | addresses in the same countries give the same fee |
| StockService.MatchesOfIsJoin | Piping.Example/ExampleBusiness/StockService.cs:14-16 | the rows for one stored record are exactly its joins with the stock's locations |
| StockService.MatchesIsJoin | Piping.Example/ExampleBusiness/StockService.cs:14-16 | the join rows are exactly the same-name pairs with a positive amount |
| StockService.Farthest | Piping.Example/ExampleBusiness/StockService.cs:17-18 | the first row of the descending order: the greatest distance, every earlier row strictly nearer |
| StockService.FirstOfJoin | Piping.Example/ExampleBusiness/StockService.cs:14-18 | a found record is stored and has a positive amount |
| StockService.FirstOfJoinNullIffNoMatch | Piping.Example/ExampleBusiness/StockService.cs:14-21 | null exactly when no stored record joins any location of the stock |
| StockService.GetNearestProductLocation | Piping.Example/ExampleBusiness/StockService.cs:11-24 | as written: a found record is stored with a positive amount, whatever the product |
| StockService.NearestNullIffNoMatch | Piping.Example/ExampleBusiness/StockService.cs:11-24 | null exactly when nothing is in stock at any of the stock's locations |
| StockService.NearestIsFarthestMatch | Piping.Example/ExampleBusiness/StockService.cs:14-18 | the record found is at a matching location no nearer than any other match |
| StockService.GetNearestLocationOfProduct | Piping.Example/ExampleBusiness/StockService.cs:11-24 | corrected: a found record is also of the requested product |
| StockService.NearestOfProductIsFarthestMatch | Piping.Example/ExampleBusiness/StockService.cs:14-18 | corrected: the record found is the product's, at a matching location no nearer than any other match of that product |
| StockService.OfProductNullIffNoMatch | Piping.Example/ExampleBusiness/StockService.cs:11-24 | corrected: null exactly when the product is in stock at none of the stock's locations |
| StockService.OfProduct | Piping.Example/ExampleBusiness/StockService.cs:11 | the stored records of a product, and only those |
| StockService.SeededJoin | Piping.Example/ExampleBusiness/DBContext.cs:44-55 | on the seeded data the join keeps the three records with stock at "Long Distance" |
| StockService.SeededRowsOf | Piping.Example/ExampleBusiness/DBContext.cs:50-55 | a seeded record joins "Long Distance" exactly when it has stock there |
| StockService.SeededToyotaJoin | Piping.Example/ExampleBusiness/DBContext.cs:50-55 | the seeded Toyota records are the third and fourth, and both join |
| StockService.ToyotaQueryFindsHonda | Piping.Example/ExampleBusiness/StockService.cs:14-18 | on the seeded data a query for the Toyota returns a Honda record; the corrected query returns a Toyota record |

## Left out

- Threads, asynchrony and the delegate type `ToValueSupplementValue` itself. A built pipeline is a
  function call on the previous outcome (`PipeInit.Segment` for the inner pipelines of `Transform`).
- The `execType` parameter of the Init overloads: the model always uses the default `Some` factory.
- `Init(ToValueSupplementValue)` at Piping/Pipe.cs:193-199. It returns its argument, the identity.
- Option.ContinuePipeLineEntrySwap: the cast `(Validation<TB, TA>)pipeInput` at Piping/Option.cs:191
  throws `InvalidCastException` on a Validation whenever the two channel types differ. The model
  passes the result on with the pair exchanged.
- Option.ContinuePipeLineEntryConvert: the cast `(Validation<TC, TD>)pipeInput` at
  Piping/Option.cs:157 throws `InvalidCastException` on a Validation whenever the Transform changes
  a channel's type (the new type differs from the old one). The call sits outside the steps' `try`
  blocks (Piping/Pipe.cs:300, 344, 521, 571, 625, 678, 731), so the exception escapes the pipeline
  delegate itself. The model cannot compare runtime types and always gives a Validation of two
  nulls that keeps the result; this matches the source only when the Transform keeps both types.
- `IInvariant` objects whose `IsValid` or `Error` getters throw: the model's `Caps.validity` is
  total. The catch blocks of the Init forms (Piping/Pipe.cs:57-61, 96-99), which turn such a throw
  into SomeException with an empty option, and the rewrapping of such a throw from
  `ValidateIsValid` inside the Then steps' `try` blocks, are therefore not modelled.
- Casts to `IInvariant` of the wrong type parameter in `ValidateIsValid`
  (`(IInvariant<TV>)source.Val`, Piping/Option.cs:48). The model reads the object's own validity.
- PipeThen.ThenBothSwapped: `ValidateIsValid` runs on the swapped pair, but its type tests at
  Piping/Option.cs:46 and 51 use the class's own `TV` and `TS`. An invalid supplement object, now
  the value, makes the `(IInvariant<TV>)` cast throw, so the step gives SomeException
  (InvalidCastException), not Validation. An invalid value object, now the supplement, fails the
  `IInvariant<TS>` test and is not reported. The model gives Validation in both cases.
- PipeThen.ThenSupplementToValue: the same two differences, for the same reason; the cast's
  exception comes out re-thrown as an InvalidOperationException with its message.
- Null delegates and null caller objects other than the channels. A null `onValue` is modelled as
  the no-op action (`PipeTransform.NoOp`).
- Subclasses of the outcome classes. The runtime-type tests of `ContinuePipeLineEntry` are
  modelled as the four variants.
- Accessors that hold by construction of the datatypes: `Pair`, `IPipeOption.ConditionIsMet` and
  `Extensions`.
- `Join` and nesting helpers outside the named files. `PipeLaws.RunSteps` covers chains of
  same-typed steps only.
- `RepositoryExt.Get` at Piping.Example/ExampleBusiness/Repository.cs:56-59 calls itself without
  end. `RepositoryExt.Save` forwards to `Save`.
- The `DBContext` singleton, `Reset`, its seeding loop and `GetAll`. The seeded records are
  constants (`ShopDomain`).
- Iteration order: the stored records are a given sequence, in seeding order, standing for the
  dictionary's enumeration order.
- Serilog logging.
- Hook objects and their state: a hook is handed only the view of the exposed object (whether it
  is an `IExposeLog`, and its `Log` line), not the object itself, and its own log is modelled as
  the lines it appends to the one shared trace, tagged with the hook's id.
- `decimal` prices: they are whole cents.
- `Car.Log` for a negative speed: the model exposes an empty line, and the tests set no negative
  speed.
- PipeScenarios.NatToString: states only that the digit string is non-empty, not its decimal
  value, because the tests compare log counts, not log text.

## Findings

| source | as written | input that shows it | evidently intended | confidence | as-written member | corrected member |
|---|---|---|---|---|---|---|
| Piping/Pipe.cs:53-56 | `Init(postProcessings)` answers an invalid IInvariant input with `CreateSome` and an empty option | an input whose `IsValid` is false | a Validation with the object's error, as the other Init overloads give (Pipe.cs:91-94) | medium, not executed | PipeInit.InitHooksAsWritten, PipeInit.InitHooksAsWrittenLetsInvalidThrough | PipeInit.InitUnit |
| Piping/Pipe.cs:887-919 | under a false `Iff` the step wraps the delegate-wide `ret`, null on the first invocation and stale afterwards | a Some pipeline after a failed `Iff`, captured value different from the current one | a skipped step keeps the current value | medium, not executed | PipeThen.ThenBothToValueAsWritten, PipeLaws.SkippedBothToValueUsesStaleValueAsWritten | PipeThen.ThenBothToValue |
| Piping/Pipe.cs:930-962 | under a false `Iff` the new supplement stays `default` and the wrap throws "Null values for supplemented value is not allowed!" | a Some pipeline after a failed `Iff` | a skipped step keeps the pair, as the Action overloads do | medium, not executed | PipeThen.ThenBothToSupplementAsWritten, PipeLaws.SkippedBothToSupplementFaultsAsWritten | PipeThen.ThenBothToSupplement |
| Piping/Pipe.cs:977-1007 | under a false `Iff` the new channel stays `default` and the wrap faults | a Some pipeline after a failed `Iff` | a skipped step only exchanges the channels | medium, not executed | PipeThen.ThenSupplementToValueAsWritten, PipeLaws.SkippedSupplementToValueFaultsAsWritten | PipeThen.ThenSupplementToValue |
| Piping/Pipe.cs:1018-1048 | under a false `Iff` the new supplement stays `default` and the wrap faults | a Some pipeline after a failed `Iff` | a skipped step keeps the pair | medium, not executed | PipeThen.ThenValueToSupplementAsWritten, PipeLaws.SkippedValueToSupplementFaultsAsWritten | PipeThen.ThenValueToSupplement |
| Piping.Example/ExampleBusiness/StockService.cs:14-18 | the query never uses its `product` parameter | the seeded data, queried for the Toyota Auris: the result is the Honda Civic record | only records of the requested product join | high, not executed | StockService.GetNearestProductLocation, StockService.ToyotaQueryFindsHonda | StockService.GetNearestLocationOfProduct |
