# test4j core helpers in Dafny

This project models four small pieces of the test4j testing library and proves properties of them.

- **Generic-type resolution** (`GenericTypes`, from `BaseDecoder`). The JSON decoders use these helpers to find the element type of a container.
  - A reflection `Type` is one of three shapes: a class (`Nominal`), a parameterized type whose argument read may return the arguments, `null` or throw (`Parameterized`), or anything else (`OtherShape`).
  - The model covers `getArgType`, `getRawType`, both `getComponent` overloads and both `getError` variants.
- **Tagged-date text** (`TaggedDate`). This is the text format of dates fixed by `DateEncoderTest` and `DateDecoderTest`.
  - A date is written as `{#class:'…',#value:'…'}`, as `{#value:'…'}` or as the bare `'…'`. The choice depends on the date class and the `UseSingleQuote` and `UnMarkClassFlag` features.
  - The reader recognises those shapes, with keys quoted or bare, and returns the class and the timestamp text.
  - Timestamps and class tags are opaque strings.
- **Stack-trace filtering** (`StackTrace`, from JMockit's `mockit.internal.util.StackTrace`). It hides, from a throwable and from each of its causes, frames without a source file name, non-native `sun.` frames, JUnit/TestNG frames, and mocking-library frames (`mockit.` classes that are internal or whose name lacks `Test`). It also finds the first frame of user code.
- **The parse-error scenario** (`ExceptionScenario`, from `ExceptionJSpecScenario`). This scenario always fails with `parse scenario error`. It holds an index and prints as `%02d - message`.

Java's `null` becomes `Option.None` and a thrown exception becomes `Result.Failure` (module `Wrappers`). Everything is an immutable value with pure functions, apart from three methods: the loops `StackTrace.FilterTrace` and `StackTrace.FindPositionInTestMethod`, and the recursive `StackTrace.FilterThrowable`.

An out-of-range argument index on a parameterized type gives `null`. The `HashMap` fallback applies only when reading the arguments throws (`GenericTypes.OutOfRangeIsNull`).

## Model

| member | source | states |
|---|---|---|
| GenericTypes.GetError | test4j.core/src/main/java/org/test4j/json/decoder/base/BaseDecoder.java:23-26 | The error has no cause. The offending value can be read back from its message for the given target type. |
| GenericTypes.GetErrorWithCause | test4j.core/src/main/java/org/test4j/json/decoder/base/BaseDecoder.java:28-31 | The message is the same as `getError(value, to)`, and the given cause is kept. |
| GenericTypes.ErrorMessageNamesValue | test4j.core/src/main/java/org/test4j/json/decoder/base/BaseDecoder.java:23-31 | A message of the form `couldn't convert "<value>" to <to>` gives `value` back when read with the same `to`. |
| GenericTypes.ErrorMessageInjective | test4j.core/src/main/java/org/test4j/json/decoder/base/BaseDecoder.java:23-26 | For one target type, two conversion errors are equal exactly when their values are equal. |
| GenericTypes.GetArgType | test4j.core/src/main/java/org/test4j/json/decoder/base/BaseDecoder.java:40-49 | It returns `null` for a null type, a negative index, a null argument array or an index at or past the end. Otherwise it returns the argument at that index. Only a non-negative index on an unreadable argument list makes the read throw. |
| GenericTypes.GetRawType | test4j.core/src/main/java/org/test4j/json/decoder/base/BaseDecoder.java:51-60 | A class gives itself. A parameterized type gives the raw class of its raw type. Every other shape, `null` included, gives the default, or `Object` when the default is null. |
| GenericTypes.RawTypeSurvivesErasure | test4j.core/src/main/java/org/test4j/json/decoder/base/BaseDecoder.java:51-60 | The raw class does not depend on any type argument: erasing every argument list leaves it unchanged. |
| GenericTypes.RawTypeOfClassBased | test4j.core/src/main/java/org/test4j/json/decoder/base/BaseDecoder.java:51-56 | If a class ends the raw-type chain, the default is never used: the raw class is the class at the bottom of the chain. |
| GenericTypes.RawTypeOfShapeless | test4j.core/src/main/java/org/test4j/json/decoder/base/BaseDecoder.java:51-60 | If the raw-type chain does not end in a class, the result is the default, or `Object`. |
| GenericTypes.GetComponent | test4j.core/src/main/java/org/test4j/json/decoder/base/BaseDecoder.java:82-96 | A class gives `HashMap` for every index. A parameterized type gives exactly what `getArgType` gives, or `HashMap` when reading the arguments throws. The call fails with a `DecoderException` and the `only accpt collection type` message exactly for `null` and the other shapes. |
| GenericTypes.OutOfRangeIsNull | test4j.core/src/main/java/org/test4j/json/decoder/base/BaseDecoder.java:85-87 | An index outside a readable argument list gives `null`, not the `HashMap` fallback. |
| GenericTypes.ComponentOfSupportedShapeSucceeds | test4j.core/src/main/java/org/test4j/json/decoder/base/BaseDecoder.java:82-92 | For a class or a parameterized type the call never fails. It gives `null` only for a negative index, a null argument array or an index past the end. |
| GenericTypes.GetComponentFor | test4j.core/src/main/java/org/test4j/json/decoder/base/BaseDecoder.java:73-80 | A failure of the declared lookup propagates unchanged. For a non-map node the declared component is returned as is. For a map node, the map's class property decides, given the declared component. |
| TaggedDate.ShapeFor | test4j.junit/src/test/java/org/test4j/json/encoder/single/spec/DateEncoderTest.java:14-63 | The `#class` tag is written exactly when `UnMarkClassFlag` is absent. The bare form is used exactly for a `java.util.Date` with that flag set, so an untagged `java.sql.Date` keeps the `#value` wrapper. The payload is always the given timestamp text. |
| TaggedDate.StyleFor | test4j.junit/src/test/java/org/test4j/json/encoder/single/spec/DateEncoderTest.java:15-63 | `UseSingleQuote` selects the single quote and bare keys. Without it, strings and keys are double-quoted. |
| TaggedDate.Encode | test4j.junit/src/test/java/org/test4j/json/encoder/single/spec/DateEncoderTest.java:14-63 | In single-quote mode the text is `{#class:'<tag>',#value:'<stamp>'}` with the tag kept. With the tag dropped it is `'<stamp>'` for `java.util.Date` and `{#value:'<stamp>'}` for `java.sql.Date`. |
| TaggedDate.EncodeUtilDateTagged | test4j.junit/src/test/java/org/test4j/json/encoder/single/spec/DateEncoderTest.java:15-23 | The sample date with `UseSingleQuote` encodes to `{#class:'Date',#value:'2011-08-01 08:11:41'}`. |
| TaggedDate.EncodeUtilDateUnmarked | test4j.junit/src/test/java/org/test4j/json/encoder/single/spec/DateEncoderTest.java:27-36 | With `UnMarkClassFlag` added, the sample date encodes to `'2011-08-01 08:11:41'`. |
| TaggedDate.EncodeSqlDateTagged | test4j.junit/src/test/java/org/test4j/json/encoder/single/spec/DateEncoderTest.java:40-49 | The sample `java.sql.Date` keeps its own class tag: `{#class:'java.sql.Date@82ae8779',#value:'2011-08-01 08:11:41'}`. |
| TaggedDate.EncodeSqlDateUnmarked | test4j.junit/src/test/java/org/test4j/json/encoder/single/spec/DateEncoderTest.java:53-63 | Without the tag, the sample `java.sql.Date` keeps the wrapper: `{#value:'2011-08-01 08:11:41'}`. |
| TaggedDate.TakeUntil | test4j.junit/src/test/java/org/test4j/json/decoder/single/spec/DateDecoderTest.java:12-46 | When the stop character is present, the text splits at its first occurrence into a stop-free head and the rest. When it is absent, nothing is found. |
| TaggedDate.Lookup | test4j.junit/src/test/java/org/test4j/json/decoder/single/spec/DateDecoderTest.java:12-46 | A found value belongs to the last field with that key: no later field has the key. If nothing is found, no field has that key. |
| TaggedDate.Decode | test4j.junit/src/test/java/org/test4j/json/decoder/single/spec/DateDecoderTest.java:12-46 | A decoded date always comes from a parsed, recognised shape and carries that shape's `#value` text. Its class comes from the registry when a tag is present, and otherwise from the declared target. |
| TaggedDate.ParseRender | test4j.junit/src/test/java/org/test4j/json/decoder/single/spec/DateDecoderTest.java:12-46 | Each of the three shapes, written in either quote style, reads back as the same shape. |
| TaggedDate.EncodeDecodeRoundTrip | test4j.junit/src/test/java/org/test4j/json/encoder/single/spec/DateEncoderTest.java:14-63 | Decoding the encoder's text, with the date's class as the target, gives back the same class and timestamp under every feature set. |
| TaggedDate.TaggedNeedsNoTarget | test4j.junit/src/test/java/org/test4j/json/decoder/single/spec/DateDecoderTest.java:12-17 | A tagged date decodes to its class and timestamp without a declared target. |
| TaggedDate.UntaggedNeedsTarget | test4j.junit/src/test/java/org/test4j/json/decoder/single/spec/DateDecoderTest.java:21-26 | Without the tag and without a declared target, decoding fails. |
| TaggedDate.DecodeTaggedUtilDate | test4j.junit/src/test/java/org/test4j/json/decoder/single/spec/DateDecoderTest.java:12-17 | `{'#class':'java.util.Date','#value':'2011-08-01 08:11:41'}` decodes to a `java.util.Date` carrying that timestamp, without a declared target. |
| TaggedDate.DecodeBareUtilDate | test4j.junit/src/test/java/org/test4j/json/decoder/single/spec/DateDecoderTest.java:21-26 | The bare `'2011-08-01 08:11:41'` decodes to a `java.util.Date` carrying the same timestamp when `Date` is the declared target. |
| TaggedDate.DecodeTaggedSqlDate | test4j.junit/src/test/java/org/test4j/json/decoder/single/spec/DateDecoderTest.java:30-36 | The `java.sql.Date` tag gives an sql date carrying the same timestamp. |
| TaggedDate.DecodeValueOnlySqlDate | test4j.junit/src/test/java/org/test4j/json/decoder/single/spec/DateDecoderTest.java:40-46 | `{'#value':'2011-08-01 08:11:41'}` decodes to an sql date carrying the same timestamp when that is the declared target. All four texts give the same timestamp. |
| StackTrace.ContainsIffOccurs | test4j.nodep/src/main/jmockit/mockit/internal/util/StackTrace.java:122-125 | The substring test used by the JMockit classifier holds exactly when the substring occurs at some position. |
| StackTrace.IsSunMethod | test4j.nodep/src/main/jmockit/mockit/internal/util/StackTrace.java:112-115 | A frame is a `sun.` method exactly when `sun.` occurs at position 0 of its class name and the method is not native. |
| StackTrace.IsTestFrameworkMethod | test4j.nodep/src/main/jmockit/mockit/internal/util/StackTrace.java:117-120 | A class is a test-framework class exactly when `org.junit.`, `junit.` or `org.testng.` occurs at position 0 of its name. |
| StackTrace.JMockitMethodIff | test4j.nodep/src/main/jmockit/mockit/internal/util/StackTrace.java:122-125 | A class is a mocking-library class exactly when `mockit.` occurs at position 0 and either `.internal.` occurs somewhere in the name or `Test` occurs nowhere. |
| StackTrace.KeepIffUserCode | test4j.nodep/src/main/jmockit/mockit/internal/util/StackTrace.java:91-125 | A frame is kept exactly when all of these hold: it has a file name, it is no JUnit or TestNG frame, it is native if its class is under `sun.`, and if its class is under `mockit.` it is not internal and mentions `Test`. |
| StackTrace.Filtered | test4j.nodep/src/main/jmockit/mockit/internal/util/StackTrace.java:84-102 | The filtered trace is no longer than the original, holds only kept frames, and holds every kept frame of the original. |
| StackTrace.FilteredSnoc | test4j.nodep/src/main/jmockit/mockit/internal/util/StackTrace.java:88-99 | Appending one frame to a trace appends it to the filtered trace exactly when the frame is kept. |
| StackTrace.FilteredIsSubsequence | test4j.nodep/src/main/jmockit/mockit/internal/util/StackTrace.java:88-102 | The filtered trace keeps the original order: it is a subsequence of the trace. |
| StackTrace.FilterIdempotent | test4j.nodep/src/main/jmockit/mockit/internal/util/StackTrace.java:91-96 | Filtering a filtered trace changes nothing. |
| StackTrace.FilterKeepsCleanTrace | test4j.nodep/src/main/jmockit/mockit/internal/util/StackTrace.java:91-96 | A trace whose frames are all kept is left unchanged. |
| StackTrace.FilterTrace | test4j.nodep/src/main/jmockit/mockit/internal/util/StackTrace.java:82-103 | The copying loop produces exactly the reference filtered trace `Filtered`, so its contract carries over: kept frames only, in order, no longer than the input. |
| StackTrace.Traces | test4j.nodep/src/main/jmockit/mockit/internal/util/StackTrace.java:105-109 | The cause chain lists at least one trace, and the throwable's own trace comes first. |
| StackTrace.FilterThrowable | test4j.nodep/src/main/jmockit/mockit/internal/util/StackTrace.java:77-110 | The throwable and every cause in its chain get their own trace filtered. The chain keeps its length. |
| StackTrace.FindPositionInTestMethod | test4j.nodep/src/main/jmockit/mockit/internal/util/StackTrace.java:127-144 | It returns the first frame of the trace that `filter` would produce, or `null` when that trace is empty. |
| StackTrace.NoPositionIffNothingKept | test4j.nodep/src/main/jmockit/mockit/internal/util/StackTrace.java:127-144 | The search finds nothing, and the filtered trace is empty, exactly when no frame of the trace is kept. |
| StackTrace.FirstKeptLeadsFiltered | test4j.nodep/src/main/jmockit/mockit/internal/util/StackTrace.java:127-144 | The first kept frame of a trace heads its filtered trace. |
| StackTrace.NothingKeptFiltersToEmpty | test4j.nodep/src/main/jmockit/mockit/internal/util/StackTrace.java:127-144 | A trace without kept frames filters to the empty trace. |
| ExceptionScenario.Create | test4j.spec/src/main/java/org/test4j/spec/scenario/ExceptionJSpecScenario.java:17-19 | A new scenario is named `parse scenario error`, wraps the given cause and starts at index 0. |
| ExceptionScenario.Validate | test4j.spec/src/main/java/org/test4j/spec/scenario/ExceptionJSpecScenario.java:21-24 | Running the scenario always fails with the stored exception. |
| ExceptionScenario.GetSteps | test4j.spec/src/main/java/org/test4j/spec/scenario/ExceptionJSpecScenario.java:32-35 | Listing the steps always fails with the stored exception. |
| ExceptionScenario.FailuresAgree | test4j.spec/src/main/java/org/test4j/spec/scenario/ExceptionJSpecScenario.java:21-40 | `validate` and `getSteps` fail with the same exception, whose message is the scenario's name, whatever the index. |
| ExceptionScenario.GetName | test4j.spec/src/main/java/org/test4j/spec/scenario/ExceptionJSpecScenario.java:37-40 | The name is the message of the exception that `validate` throws. |
| ExceptionScenario.GetIndex | test4j.spec/src/main/java/org/test4j/spec/scenario/ExceptionJSpecScenario.java:42-47 | `getIndex` returns the index last set: setting that index again leaves the scenario unchanged. |
| ExceptionScenario.SetIndex | test4j.spec/src/main/java/org/test4j/spec/scenario/ExceptionJSpecScenario.java:42-52 | After `setIndex(i)` the index is `i`. The exception and the name are unchanged. |
| ExceptionScenario.SetIndexLaws | test4j.spec/src/main/java/org/test4j/spec/scenario/ExceptionJSpecScenario.java:42-52 | Of two index updates only the last counts. Setting the current index changes nothing. |
| ExceptionScenario.NatDigits | test4j.spec/src/main/java/org/test4j/spec/scenario/ExceptionJSpecScenario.java:57 | A decimal numeral is one or more digits, a single digit exactly for values below 10, and starts with `0` only for 0 itself. |
| ExceptionScenario.NatDigitsValue | test4j.spec/src/main/java/org/test4j/spec/scenario/ExceptionJSpecScenario.java:57 | Reading the numeral of `n` gives `n`. |
| ExceptionScenario.LeadingZeroValue | test4j.spec/src/main/java/org/test4j/spec/scenario/ExceptionJSpecScenario.java:57 | A padding zero does not change a numeral's value. |
| ExceptionScenario.FormatIndex | test4j.spec/src/main/java/org/test4j/spec/scenario/ExceptionJSpecScenario.java:57 | `%02d` gives at least two characters, contains no space, and reads back as the same index. It pads to width 2 and no further: 0 to 9 give two characters, 10 and above have no leading zero, and a negative index is `-` followed by a digit other than 0. |
| ExceptionScenario.FormatIndexExamples | test4j.spec/src/main/java/org/test4j/spec/scenario/ExceptionJSpecScenario.java:57 | 0, 7, 42 and -3 print as `00`, `07`, `42` and `-3`. |
| ExceptionScenario.ReplaceWhitespace | test4j.spec/src/main/java/org/test4j/spec/scenario/ExceptionJSpecScenario.java:57 | Each whitespace character becomes one space and every other character stays. The length is kept, and no whitespace other than spaces is left. |
| ExceptionScenario.ReplaceWhitespaceIdempotent | test4j.spec/src/main/java/org/test4j/spec/scenario/ExceptionJSpecScenario.java:57 | Replacing twice is the same as replacing once. A message whose only whitespace is spaces is left alone. |
| ExceptionScenario.FirstSpace | test4j.spec/src/main/java/org/test4j/spec/scenario/ExceptionJSpecScenario.java:57 | It returns the position of the first space, or the length when there is no space. |
| ExceptionScenario.ToString | test4j.spec/src/main/java/org/test4j/spec/scenario/ExceptionJSpecScenario.java:54-58 | The text before the first space is exactly `%02d` of the index. Splitting the text at that ` - ` gives back the index and the message with its whitespace flattened. |
| ExceptionScenario.DisplaySplitsAtFirstSpace | test4j.spec/src/main/java/org/test4j/spec/scenario/ExceptionJSpecScenario.java:57 | In `<index> - <message>`, where the index text has no space, the first space follows the index. |
| ExceptionScenario.CreatedScenarioDisplay | test4j.spec/src/main/java/org/test4j/spec/scenario/ExceptionJSpecScenario.java:54-58 | A new scenario at index `i` prints as `%02d` of `i`, then ` - parse scenario error`. |

## Left out

- `BaseDecoder.isInterfaceOrAbstract` and `newInstance`: they delegate to `ClazzHelper` and to reflection, which are not part of this model.
- The log call in the catch branch of `getComponent` is not modelled, because logging has no observable effect on the result.
- `JSONMap.getClazzFromJSONFProp` is not part of this model. The node-aware `GetComponentFor` takes it as a function parameter.
- The `JSONObject` node is reduced to its kind (map, array, single value).
- `GenericTypes.GetError`: the value is a non-null string. Java would print a null value as `null`.
- An exception's cause is an opaque description string, not a full Java object.
- `TaggedDate.StyleFor`: the tests only use single-quote mode. For the default mode, the model assumes standard JSON text: double quotes, with keys quoted.
- The encoder tests compare text with whitespace ignored. The model writes no whitespace outside quoted text, and the reader accepts none there.
- The model neither escapes nor unescapes quote characters. For that reason the round-trip lemmas require the timestamp and the class tag to be free of the active quote character.
- An object with a repeated key is read as a map would keep it: the last value wins.
- Calendar parsing, the millisecond semantics of `java.sql.Date`, and date-format errors are not modelled: timestamps are opaque text. The origin of the `@82ae8779` suffix in the sql class tag is not modelled either, since the tag is opaque input.
- The mutable encoder singleton and its `setFeatures` call become an immutable feature-set argument to each encode call.
- Mapping a `#class` tag to a date class belongs to the host's class registry. It is a function parameter; `HostDateClass` stands in for it in the decoder tests.
- `StackTrace.getThrowableMethod`, `getDepth` and `getElement` read the trace through reflection on `Throwable` internals. The model takes the trace as a plain sequence.
- `filter` overwrites the throwable's trace in place. The model returns a new throwable instead.
- In the model a cause chain is finite by construction. A Java chain with a cycle would make `filter` recurse without end, and that case is not modelled.
- `ExceptionJSpecScenario.iterator`: `DataProviderIterator` is not part of this model.
- The `getName` branch for a null exception is not modelled, because it cannot be reached: the only constructor always sets the exception.
- `ExceptionScenario.FormatIndex`: assumes a locale that uses ASCII digits. Java's `String.format` uses the default locale's digits.
- `MockedType`, `SpringBeanInjectorByResource` and the remaining tests of code outside this model are not modelled. They are reflection, annotation, Spring and I/O glue.
