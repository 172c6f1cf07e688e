# easyexcel converter utilities, modelled in Dafny

This project models `ConverterUtils` from easyexcel. It is the part of the
reader that turns a tagged spreadsheet cell (`CellData`) into a Java value for
a destination field. The model covers four steps:

- Picking the destination class. With no field, it is `String`. A `CellData<T>`
  field is unwrapped to its inner class, and the result is wrapped back into a
  copy of the cell.
- Choosing the converter. An override on the field's `ExcelContentProperty`
  wins over the global converter map, which is keyed by (class, cell kind).
- Calling the converter.
- Reporting the two failures: "converter not found" and "conversion failed",
  which wraps the cause, the cell and the destination class.

It also models the batch helper `convertToStringMap`. That helper maps every
column of a row to a String, puts null for an EMPTY cell, and stops at the
first error.

Files:

- `wrappers.dfy`: `Option` (a nullable reference) and `Result` (returns or throws).
- `excel.dfy`: the entities, which are cell kinds, classes, cells, values,
  throwables, errors, registry keys, content properties, field descriptors and
  the read holder. The converters' behaviour is passed in as a function value
  of type `Routines`.
- `converter_utils.dfy`: the operations and the lemmas about them.
  - `doConvertToJavaObject` and `convertToJavaObject` only make decisions, so
    they are functions returning a `Result`.
  - `convertToStringMap` is a method. It has a loop over the columns that are
    not yet visited, with invariants. It is proved against the predicate
    `RowOutcome`.

Classes are `StringClass`, `CellDataClass`, or `OtherClass(name)`. The name
in `OtherClass(name)` has type `ClassName`, which excludes `java.lang.String`
and `com.alibaba.excel.metadata.CellData`, so every class has exactly one
representation. In the same way, a converter result of class String is always
`Text`, and one of class CellData is always `Boxed`.

The map's entries are visited in an order the model leaves open, as Java's
`Map.entrySet()` does. So on failure the model promises only that the error
is the error of one failing cell. On success the map is fully determined.

## Model

| member | source | states |
|---|---|---|
| `ConverterUtils.ChooseConverter` | src/main/java/com/alibaba/excel/util/ConverterUtils.java:104-110 | a property's converter, when present, is used as is; otherwise a converter is found exactly when (class, kind) is in the registry, and it is the registry's entry |
| `ConverterUtils.Caught` | src/main/java/com/alibaba/excel/util/ConverterUtils.java:115-119 | an exception thrown by a converter becomes "conversion failed" carrying that cause, the cell and the destination class; a java.lang.Error escapes unwrapped; neither is ever "not found" |
| `ConverterUtils.DoConvertToJavaObject` | src/main/java/com/alibaba/excel/util/ConverterUtils.java:102-120 | "not found" (with the cell's kind and the class) exactly when no converter is chosen; success exactly when the chosen converter returns, with its result unchanged; every other failure is the chosen converter's throw, wrapped by the catch |
| `ConverterUtils.OverrideIgnoresRegistry` | src/main/java/com/alibaba/excel/util/ConverterUtils.java:104-110 | with an override on the property, the outcome is the same for any two registries and a success is the override's own result |
| `ConverterUtils.NotFoundCallsNothing` | src/main/java/com/alibaba/excel/util/ConverterUtils.java:111-114 | when no converter is chosen the outcome is "not found" whatever the converters do, so none is called |
| `ConverterUtils.EmptyCellIsLookedUp` | src/main/java/com/alibaba/excel/util/ConverterUtils.java:108-114 | on the general path an EMPTY cell is looked up under (class, EMPTY) like any kind: "not found" exactly when that key is missing |
| `ConverterUtils.InnerClassAsWritten` | src/main/java/com/alibaba/excel/util/ConverterUtils.java:77-84 | a generic type that is not a ParameterizedType (a raw `CellData`, a type variable) gives String; a parameterized one succeeds only when its first type argument is itself parameterized (its raw type), and otherwise fails with an unwrapped ClassCastException |
| `ConverterUtils.InnerClass` | src/main/java/com/alibaba/excel/util/ConverterUtils.java:77-84 | corrected inner class: the class the first type argument names (raw type if parameterized); String for a generic type that is not parameterized or an argument naming no class |
| `ConverterUtils.ResolveDestinationAsWritten` | src/main/java/com/alibaba/excel/util/ConverterUtils.java:70-84 | no field gives String; a non-CellData field gives its declared class, unwrapped; a CellData field gives a container of the inner class, or the cast failure |
| `ConverterUtils.ResolveDestination` | src/main/java/com/alibaba/excel/util/ConverterUtils.java:70-84 | corrected resolution: a container exactly for CellData fields, of `InnerClass`; String for no field; the declared class otherwise; never fails |
| `ConverterUtils.ResolutionAgreesWhereDefined` | src/main/java/com/alibaba/excel/util/ConverterUtils.java:79-84 | wherever the code as written resolves a destination, the corrected resolution gives the same one |
| `ConverterUtils.PlainTypeArgumentRejected` | src/main/java/com/alibaba/excel/util/ConverterUtils.java:81 | a `CellData<String>` field fails with ClassCastException as written, and resolves to a String container when corrected |
| `ConverterUtils.ConvertFor` | src/main/java/com/alibaba/excel/util/ConverterUtils.java:85-90 | success exactly when the dispatch succeeds; errors pass through unchanged; a plain destination returns the dispatch result, a container returns a copy of the cell (same kind and payload) whose data is that result |
| `ConverterUtils.ConvertToJavaObject` | src/main/java/com/alibaba/excel/util/ConverterUtils.java:68-91 | no field: dispatch to String; non-CellData field: dispatch to the declared class, result unwrapped; CellData field: dispatch to the inner class, fails exactly when it fails, and on success is the cell copy with that data |
| `ConverterUtils.ConvertToJavaObjectAsWritten` | src/main/java/com/alibaba/excel/util/ConverterUtils.java:68-91 | fails with the unwrapped ClassCastException when the resolution as written fails, and otherwise agrees with the corrected conversion |
| `ConverterUtils.CastToString` | src/main/java/com/alibaba/excel/util/ConverterUtils.java:49-50 | the `(String)` cast lets null and Strings through unchanged and throws ClassCastException for any other object |
| `ConverterUtils.EntryText` | src/main/java/com/alibaba/excel/util/ConverterUtils.java:37-53 | an EMPTY cell gives null; any other cell gives the general dispatch to String with a null property, followed by the cast, whose failure is "conversion failed" for that cell and String |
| `ConverterUtils.EmptyEntryTouchesNothing` | src/main/java/com/alibaba/excel/util/ConverterUtils.java:38-41 | an EMPTY cell's entry is null for every registry, configuration and set of converters: no lookup and no call |
| `ConverterUtils.RowText` | src/main/java/com/alibaba/excel/util/ConverterUtils.java:35-55 | the String map of a row whose cells all convert has exactly the row's columns, each holding its cell's entry |
| `ConverterUtils.ConvertToStringMap` | src/main/java/com/alibaba/excel/util/ConverterUtils.java:34-56 | succeeds exactly when every cell converts, and then returns the map of every column to its entry; otherwise returns the error of some failing cell and no map |
| `ConverterUtils.RowKeepsEveryColumn` | src/main/java/com/alibaba/excel/util/ConverterUtils.java:36-41 | a successful row result has exactly the input's columns, and an EMPTY cell's column holds null |
| `ConverterUtils.OneFailingCellFailsRow` | src/main/java/com/alibaba/excel/util/ConverterUtils.java:44-53 | fail-fast: one cell whose converter is missing or throws makes every possible outcome a failure; a "not found" is always about String |
| `ConverterUtils.MixedRowExample` | src/main/java/com/alibaba/excel/util/ConverterUtils.java:36-55 | {0: STRING "a", 1: EMPTY, 2: NUMBER 3.5} with String and Number converters yields {0: "a", 1: null, 2: "3.5"} |
| `ConverterUtils.MissingConverterExample` | src/main/java/com/alibaba/excel/util/ConverterUtils.java:42-47 | {0: STRING "a", 1: ERROR} with only a String converter fails with "not found" for ERROR to String, in every visiting order |

## Left out

- Java reflection (`Field.getType`, `Field.getGenericType`, `ParameterizedType`) is replaced by a precomputed `Field` descriptor. It holds the declared class and the generic type, reduced to the first type argument.
- The concrete converters are not modelled. They are given by the `Routines` function. `ConverterKeyBuild.buildKey` is also not modelled: the registry key is the pair (class, kind), with no claim about its string encoding or about collisions.
- `GlobalConfiguration`, and the settings of `ExcelContentProperty` other than its converter, are passed through as opaque values.
- `CellData` is reduced to kind, payload and data. The copy constructor is modelled as "same kind and payload, data replaced".
- Exception message texts are left out.
- The initial capacity of the `HashMap` (line 35), `cellDataMap.size() * 4 / 3 + 1`, is not modelled. In Java `int` arithmetic, a row of 2^29 to 2^30 - 2 cells makes `size() * 4` wrap to a negative number, and `new HashMap` then throws IllegalArgumentException before the loop runs; the model's `ConvertToStringMap` succeeds for rows of any size. This overflow is left out because rows of that many cells do not occur.
- Java nulls the model cannot represent, and what the source does with each:
  - A key of the converter map that maps to null. `get` returns null, so the source reports "converter not found" (lines 44-46 and 111-113). `Registry` cannot hold a null, so such a key is represented by its absence, which gives the same outcome.
  - A null cell in the row given to `convertToStringMap`. Line 38 throws a NullPointerException, outside any try block.
  - A null cell given to `convertToJavaObject`. For a field other than CellData (or no field): with a converter override on the property, line 116 calls that converter with null, and whatever it throws is wrapped like any other exception; without an override, line 109 throws a NullPointerException, not wrapped. For a CellData field, the copy constructor at line 85 receives the null first, before any dispatch; it is not part of this model.
  - A null column index in the row. Java's `HashMap` stores it, and line 39 or 49 puts an entry under the null key. Column indices here are `int`, which has no null.
- `Kind` lists the cell kinds of the library's CellDataTypeEnum. The enum's own source is not part of this model. Only EMPTY is treated differently by this code.
- DoConvertToJavaObject: "the converter is called at most once" is stated as "the outcome is the outcome of the single chosen call". Converters are pure function values here, so side effects of a call and call counts are not modelled.
- ConvertToStringMap: the order in which entries are visited is not modelled. On failure the contract names only "the error of some failing cell", because the source's map iteration order decides which one is reported.
- InnerClass: for a type argument that names no class (a wildcard or a type variable), the corrected resolution falls back to String. This is a choice of the correction; the code as written throws ClassCastException there too.
- There is no concurrency in this code.

## Findings

| source | as written | input that shows it | evidently intended | confidence | as-written member | corrected member |
|---|---|---|---|---|---|---|
| src/main/java/com/alibaba/excel/util/ConverterUtils.java:81 | the first type argument of a `CellData<T>` field is cast to `ParameterizedType` before its raw type is taken, outside any try block | a field declared `CellData<String>`: the argument is the class `String`, so the cast throws ClassCastException before any converter is chosen | take the class the argument names (`String` here) as the inner destination class | not executed; high for plain-class arguments | `ConverterUtils.PlainTypeArgumentRejected` | `ConverterUtils.ResolveDestination` |
