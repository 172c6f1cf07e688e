/** ConverterUtils: resolving the destination type of a cell, choosing its
    converter (field override first, registry second), calling it, and the
    batch conversion of a row into a column -> String map. */
module ConverterUtils {
  import opened Wrappers
  import opened Excel

  // ---------------------------------------------------------------------
  // Dispatch (doConvertToJavaObject)
  // ---------------------------------------------------------------------

  /** The converter a call uses: the content property's converter when
      there is a property and it carries one, otherwise the registry's entry
      for (target, kind), otherwise none. */
  function ChooseConverter(property: Option<ContentProperty>, registry: Registry, target: TypeId, kind: Kind): (c: Option<ConverterId>)
    ensures property.Some? && property.value.converter.Some? ==> c == property.value.converter
    ensures (property.None? || property.value.converter.None?) ==>
              (c.Some? <==> ConverterKey(target, kind) in registry)
    ensures (property.None? || property.value.converter.None?) && c.Some? ==>
              c.value == registry[ConverterKey(target, kind)]
  {
    var overriding := if property.Some? then property.value.converter else None;
    if overriding.Some? then overriding
    else if ConverterKey(target, kind) in registry then Some(registry[ConverterKey(target, kind)])
    else None
  }

  /** How `catch (Exception e)` treats what a converter threw: an exception
      is wrapped with the cell and the destination class, a java.lang.Error
      escapes as it is. */
  function Caught(thrown: Throwable, cell: Cell, target: TypeId): (e: ConvertError)
    ensures thrown.IsException() <==> e.ConversionFailed?
    ensures e.ConversionFailed? ==> e.cause == thrown && e.cell == cell && e.target == target
    ensures e.Propagated? ==> e.thrown == thrown
    ensures !e.ConverterNotFound?
  {
    if thrown.IsException() then ConversionFailed(thrown, cell, target) else Propagated(thrown)
  }

  /** Converts `cell` to class `target` with the chosen converter.
      A missing converter fails before the try block and so is never
      wrapped; the converter is called once, with the property and the
      configuration, and its result is returned unchanged. */
  function DoConvertToJavaObject(cell: Cell, target: TypeId, property: Option<ContentProperty>,
                                 registry: Registry, config: GlobalConfiguration, run: Routines): (r: Result<Value, ConvertError>)
    ensures var c := ChooseConverter(property, registry, target, cell.kind);
            (r.Failure? && r.error.ConverterNotFound?) <==> c.None?
    ensures r.Failure? && r.error.ConverterNotFound? ==> r.error == ConverterNotFound(cell.kind, target)
    ensures var c := ChooseConverter(property, registry, target, cell.kind);
            r.Success? <==> c.Some? && run(c.value, cell, property, config).Success?
    ensures var c := ChooseConverter(property, registry, target, cell.kind);
            r.Success? ==> r.value == run(c.value, cell, property, config).value
    ensures var c := ChooseConverter(property, registry, target, cell.kind);
            r.Failure? && !r.error.ConverterNotFound? ==>
              c.Some? && run(c.value, cell, property, config).Failure? &&
              r.error == Caught(run(c.value, cell, property, config).error, cell, target)
  {
    var converter := ChooseConverter(property, registry, target, cell.kind);
    if converter.None? then
      Failure(ConverterNotFound(cell.kind, target))
    else
      match run(converter.value, cell, property, config)
      case Success(v) => Success(v)
      case Failure(thrown) => Failure(Caught(thrown, cell, target))
  }

  /** A converter override on the property wins: the registry is not
      consulted, so any two registries give the same outcome. */
  lemma OverrideIgnoresRegistry(cell: Cell, target: TypeId, property: Option<ContentProperty>,
                                registry1: Registry, registry2: Registry, config: GlobalConfiguration, run: Routines)
    requires property.Some? && property.value.converter.Some?
    ensures DoConvertToJavaObject(cell, target, property, registry1, config, run)
         == DoConvertToJavaObject(cell, target, property, registry2, config, run)
    ensures var r := DoConvertToJavaObject(cell, target, property, registry1, config, run);
            r.Success? ==> r.value == run(property.value.converter.value, cell, property, config).value
  {
  }

  /** When no converter is found, none is called: the outcome does not
      depend on what the converters do. */
  lemma NotFoundCallsNothing(cell: Cell, target: TypeId, property: Option<ContentProperty>,
                             registry: Registry, config: GlobalConfiguration, run1: Routines, run2: Routines)
    requires ChooseConverter(property, registry, target, cell.kind).None?
    ensures DoConvertToJavaObject(cell, target, property, registry, config, run1)
         == DoConvertToJavaObject(cell, target, property, registry, config, run2)
         == Failure(ConverterNotFound(cell.kind, target))
  {
  }

  /** Outside the batch String helper an EMPTY cell is not special: without
      an override it is looked up under (target, EMPTY) like any kind, and
      fails as not found when that key is missing. */
  lemma EmptyCellIsLookedUp(cell: Cell, target: TypeId, property: Option<ContentProperty>,
                            registry: Registry, config: GlobalConfiguration, run: Routines)
    requires cell.kind == Empty
    requires property.None? || property.value.converter.None?
    ensures var r := DoConvertToJavaObject(cell, target, property, registry, config, run);
            ConverterKey(target, Empty) !in registry <==> r == Failure(ConverterNotFound(Empty, target))
    ensures var r := DoConvertToJavaObject(cell, target, property, registry, config, run);
            ConverterKey(target, Empty) in registry ==>
              r.Success? == run(registry[ConverterKey(target, Empty)], cell, property, config).Success?
  {
  }

  // ---------------------------------------------------------------------
  // Destination type resolution (convertToJavaObject)
  // ---------------------------------------------------------------------

  /** Where a converted value goes: straight to a field of class `target`,
      or into a copy of the cell (a `CellData` field) whose data is a value
      of class `inner`. */
  datatype Destination = Plain(target: TypeId) | Container(inner: TypeId)

  /** The class a destination converts to. */
  function TargetOf(d: Destination): TypeId
  {
    match d
    case Plain(t) => t
    case Container(t) => t
  }

  /** The inner class of a `CellData<T>` field as the code is written: the
      first type argument is cast to ParameterizedType before its raw type
      is taken, so any argument that is not itself parameterized throws a
      ClassCastException outside every try block. */
  function InnerClassAsWritten(generic: GenericType): (r: Result<TypeId, ConvertError>)
    ensures generic.NotParameterized? ==> r == Success(StringClass)
    ensures generic.ParameterizedType? ==>
              (r.Success? <==> generic.firstArgument.ParameterizedArgument?)
    ensures r.Failure? ==> r.error == Propagated(ClassCastFailure)
    ensures r.Success? && generic.ParameterizedType? ==> r.value == generic.firstArgument.raw
  {
    match generic
    case NotParameterized => Success(StringClass)
    case ParameterizedType(ParameterizedArgument(raw)) => Success(raw)
    case ParameterizedType(_) => Failure(Propagated(ClassCastFailure))
  }

  /** The inner class of a `CellData<T>` field, corrected: the class named
      by the first type argument (the raw type of a parameterized one), and
      String when the field's generic type is not parameterized or the
      argument names no class. */
  function InnerClass(generic: GenericType): (t: TypeId)
    ensures generic.NotParameterized? ==> t == StringClass
    ensures generic.ParameterizedType? && generic.firstArgument.ClassArgument? ==> t == generic.firstArgument.cls
    ensures generic.ParameterizedType? && generic.firstArgument.ParameterizedArgument? ==> t == generic.firstArgument.raw
    ensures generic.ParameterizedType? && generic.firstArgument.OtherArgument? ==> t == StringClass
  {
    match generic
    case NotParameterized => StringClass
    case ParameterizedType(ClassArgument(cls)) => cls
    case ParameterizedType(ParameterizedArgument(raw)) => raw
    case ParameterizedType(OtherArgument) => StringClass
  }

  /** Destination of a conversion as the code is written: String with no
      field, the declared class for any field not of class CellData, and
      for a CellData field its inner class, wrapped back afterwards. */
  function ResolveDestinationAsWritten(field: Option<Field>): (r: Result<Destination, ConvertError>)
    ensures field.None? ==> r == Success(Plain(StringClass))
    ensures field.Some? && field.value.declared != CellDataClass ==> r == Success(Plain(field.value.declared))
    ensures field.Some? && field.value.declared == CellDataClass ==>
              (r.Success? <==> InnerClassAsWritten(field.value.generic).Success?) &&
              (r.Success? ==> r.value == Container(InnerClassAsWritten(field.value.generic).value)) &&
              (r.Failure? ==> r.error == Propagated(ClassCastFailure))
  {
    if field.None? then Success(Plain(StringClass))
    else if field.value.declared != CellDataClass then Success(Plain(field.value.declared))
    else match InnerClassAsWritten(field.value.generic)
      case Success(inner) => Success(Container(inner))
      case Failure(e) => Failure(e)
  }

  /** Destination of a conversion, corrected: as written, except that a
      CellData field always resolves, to the class its type argument names. */
  function ResolveDestination(field: Option<Field>): (d: Destination)
    ensures d.Container? <==> field.Some? && field.value.declared == CellDataClass
    ensures field.None? ==> d == Plain(StringClass)
    ensures field.Some? && field.value.declared != CellDataClass ==> d == Plain(field.value.declared)
    ensures d.Container? ==> d.inner == InnerClass(field.value.generic)
  {
    if field.None? then Plain(StringClass)
    else if field.value.declared != CellDataClass then Plain(field.value.declared)
    else Container(InnerClass(field.value.generic))
  }

  /** Wherever the code as written resolves a destination, the corrected
      resolution agrees with it. */
  lemma ResolutionAgreesWhereDefined(field: Option<Field>)
    requires ResolveDestinationAsWritten(field).Success?
    ensures ResolveDestinationAsWritten(field).value == ResolveDestination(field)
  {
  }

  /** The code as written rejects `CellData<String>`, the most common
      CellData field, with a ClassCastException; the corrected resolution
      converts it to String and wraps it back. */
  lemma PlainTypeArgumentRejected()
    ensures var f := Some(Field(CellDataClass, ParameterizedType(ClassArgument(StringClass))));
            ResolveDestinationAsWritten(f) == Failure(Propagated(ClassCastFailure)) &&
            ResolveDestination(f) == Container(StringClass)
  {
  }

  /** Converts `cell` for `destination`: a plain destination returns the
      dispatch result unchanged; a container returns a copy of the cell
      whose data is the dispatch result. Errors pass through. */
  function ConvertFor(cell: Cell, destination: Destination, property: Option<ContentProperty>,
                      registry: Registry, config: GlobalConfiguration, run: Routines): (r: Result<Value, ConvertError>)
    ensures var inner := DoConvertToJavaObject(cell, TargetOf(destination), property, registry, config, run);
            (r.Success? <==> inner.Success?) &&
            (r.Failure? ==> r.error == inner.error) &&
            (r.Success? && destination.Plain? ==> r.value == inner.value) &&
            (r.Success? && destination.Container? ==>
               r.value.Boxed? && r.value.cell.kind == cell.kind && r.value.cell.payload == cell.payload &&
               r.value.cell.data == inner.value)
  {
    var inner := DoConvertToJavaObject(cell, TargetOf(destination), property, registry, config, run);
    match inner
    case Failure(e) => Failure(e)
    case Success(v) =>
      if destination.Container? then Success(Boxed(cell.(data := v))) else Success(v)
  }

  /** convertToJavaObject with the corrected resolution of CellData fields. */
  function ConvertToJavaObject(cell: Cell, field: Option<Field>, property: Option<ContentProperty>,
                               registry: Registry, config: GlobalConfiguration, run: Routines): (r: Result<Value, ConvertError>)
    ensures field.None? ==> r == DoConvertToJavaObject(cell, StringClass, property, registry, config, run)
    ensures field.Some? && field.value.declared != CellDataClass ==>
              r == DoConvertToJavaObject(cell, field.value.declared, property, registry, config, run)
    ensures field.Some? && field.value.declared == CellDataClass ==>
              var inner := DoConvertToJavaObject(cell, InnerClass(field.value.generic), property, registry, config, run);
              (r.Failure? <==> inner.Failure?) &&
              (r.Failure? ==> r.error == inner.error) &&
              (r.Success? ==> r.value == Boxed(cell.(data := inner.value)))
  {
    ConvertFor(cell, ResolveDestination(field), property, registry, config, run)
  }

  /** convertToJavaObject exactly as written: a CellData field whose type
      argument is not parameterized fails before any converter is chosen. */
  function ConvertToJavaObjectAsWritten(cell: Cell, field: Option<Field>, property: Option<ContentProperty>,
                                        registry: Registry, config: GlobalConfiguration, run: Routines): (r: Result<Value, ConvertError>)
    ensures ResolveDestinationAsWritten(field).Failure? ==> r == Failure(Propagated(ClassCastFailure))
    ensures ResolveDestinationAsWritten(field).Success? ==>
              r == ConvertToJavaObject(cell, field, property, registry, config, run)
  {
    match ResolveDestinationAsWritten(field)
    case Failure(e) => Failure(e)
    case Success(d) => ConvertFor(cell, d, property, registry, config, run)
  }

  // ---------------------------------------------------------------------
  // Batch conversion of a row to Strings (convertToStringMap)
  // ---------------------------------------------------------------------

  /** The `(String)` cast of a converter's result: null and Strings pass,
      anything else throws a ClassCastException. */
  function CastToString(v: Value): (r: Result<Option<string>, Throwable>)
    ensures r.Success? <==> v.Null? || v.Text?
    ensures v.Null? ==> r == Success(None)
    ensures v.Text? ==> r == Success(Some(v.text))
    ensures r.Failure? ==> r.error == ClassCastFailure
  {
    match v
    case Null => Success(None)
    case Text(s) => Success(Some(s))
    case _ => Failure(ClassCastFailure)
  }

  /** The String-map entry of one cell: null for EMPTY with no lookup and no
      call; otherwise the general dispatch to String with a null property,
      followed by the cast, whose failure is wrapped like one the converter
      threw. */
  function EntryText(cell: Cell, holder: ReadHolder, run: Routines): (r: Result<Option<string>, ConvertError>)
    ensures cell.kind == Empty ==> r == Success(None)
    ensures cell.kind != Empty ==>
              var d := DoConvertToJavaObject(cell, StringClass, None, holder.converters, holder.config, run);
              (d.Failure? ==> r == Failure(d.error)) &&
              (d.Success? ==> r.Success? == CastToString(d.value).Success?) &&
              (d.Success? && r.Success? ==> r.value == CastToString(d.value).value) &&
              (d.Success? && r.Failure? ==> r.error == ConversionFailed(ClassCastFailure, cell, StringClass))
  {
    if cell.kind == Empty then Success(None)
    else
      var key := ConverterKey(StringClass, cell.kind);
      if key !in holder.converters then Failure(ConverterNotFound(cell.kind, StringClass))
      else match run(holder.converters[key], cell, None, holder.config)
        case Failure(thrown) => Failure(Caught(thrown, cell, StringClass))
        case Success(v) =>
          match CastToString(v)
          case Success(s) => Success(s)
          case Failure(thrown) => Failure(Caught(thrown, cell, StringClass))
  }

  /** An EMPTY cell's entry is null whatever the registry, configuration
      and converters are: nothing is looked up and nothing is called. */
  lemma EmptyEntryTouchesNothing(cell: Cell, holder1: ReadHolder, holder2: ReadHolder, run1: Routines, run2: Routines)
    requires cell.kind == Empty
    ensures EntryText(cell, holder1, run1) == EntryText(cell, holder2, run2) == Success(None)
  {
  }

  /** Every cell of the row converts without error. */
  predicate AllEntriesConvert(cells: map<int, Cell>, holder: ReadHolder, run: Routines)
  {
    forall k :: k in cells ==> EntryText(cells[k], holder, run).Success?
  }

  /** The String map of a row whose every cell converts. */
  function RowText(cells: map<int, Cell>, holder: ReadHolder, run: Routines): (m: map<int, Option<string>>)
    requires AllEntriesConvert(cells, holder, run)
    ensures m.Keys == cells.Keys
    ensures forall k :: k in m ==> Success(m[k]) == EntryText(cells[k], holder, run)
  {
    map k | k in cells :: EntryText(cells[k], holder, run).value
  }

  /** The outcomes convertToStringMap may have, whatever order the entries
      are visited in: the full String map when every cell converts, and
      otherwise the error of one cell that fails. */
  predicate RowOutcome(cells: map<int, Cell>, holder: ReadHolder, run: Routines, r: Result<map<int, Option<string>>, ConvertError>)
  {
    && (r.Success? <==> AllEntriesConvert(cells, holder, run))
    && (r.Success? ==> r.value == RowText(cells, holder, run))
    && (r.Failure? ==> exists k :: k in cells && EntryText(cells[k], holder, run) == Failure(r.error))
  }

  /** convertToStringMap: visits the entries one at a time, in an order the
      model leaves open, puts null for EMPTY cells, and stops at the first
      cell whose converter is missing or fails. */
  method ConvertToStringMap(cells: map<int, Cell>, holder: ReadHolder, run: Routines)
    returns (r: Result<map<int, Option<string>>, ConvertError>)
    ensures RowOutcome(cells, holder, run, r)
  {
    var stringMap: map<int, Option<string>> := map[];
    var pending := cells.Keys;
    while pending != {}
      invariant pending <= cells.Keys
      invariant stringMap.Keys == cells.Keys - pending
      invariant forall k :: k in stringMap ==> EntryText(cells[k], holder, run) == Success(stringMap[k])
      decreases pending
    {
      // With this extensionality fact in hand the verifier finds an element
      // of the non-empty set for the `:|` below.
      assert (forall c :: c !in pending) ==> pending == {};
      var k :| k in pending;
      pending := pending - {k};
      var cell := cells[k];
      if cell.kind == Empty {
        stringMap := stringMap[k := None];
        continue;
      }
      var key := ConverterKey(StringClass, cell.kind);
      if key !in holder.converters {
        return Failure(ConverterNotFound(cell.kind, StringClass));
      }
      var outcome := run(holder.converters[key], cell, None, holder.config);
      if outcome.Failure? {
        return Failure(Caught(outcome.error, cell, StringClass));
      }
      var text := CastToString(outcome.value);
      if text.Failure? {
        return Failure(Caught(text.error, cell, StringClass));
      }
      stringMap := stringMap[k := text.value];
    }
    // Pointwise agreement with RowText, from which map extensionality follows.
    assert forall k :: k in stringMap ==> stringMap[k] == RowText(cells, holder, run)[k];
    r := Success(stringMap);
  }

  /** Every column of the input appears in a successful result, and only
      those; an EMPTY cell's column holds null. */
  lemma RowKeepsEveryColumn(cells: map<int, Cell>, holder: ReadHolder, run: Routines,
                            r: Result<map<int, Option<string>>, ConvertError>, k: int)
    requires RowOutcome(cells, holder, run, r) && r.Success?
    ensures r.value.Keys == cells.Keys
    ensures k in cells && cells[k].kind == Empty ==> r.value[k] == None
  {
  }

  /** Fail-fast: one cell without a String converter, or whose converter
      throws, makes the whole row fail; no map is returned. */
  lemma OneFailingCellFailsRow(cells: map<int, Cell>, holder: ReadHolder, run: Routines,
                               r: Result<map<int, Option<string>>, ConvertError>, k: int)
    requires RowOutcome(cells, holder, run, r)
    requires k in cells && EntryText(cells[k], holder, run).Failure?
    ensures r.Failure?
    ensures !r.error.ConverterNotFound? || r.error.target == StringClass
  {
  }

  /** A row of String, EMPTY and Number cells with converters for String
      and Number: the String map is {0: "a", 1: null, 2: "3.5"}. */
  lemma MixedRowExample(run: Routines)
    requires run(1, Cell(String, TextPayload("a"), Null), None, GlobalConfiguration(0)) == Success(Text("a"))
    requires run(2, Cell(Number, NumberPayload(3.5), Null), None, GlobalConfiguration(0)) == Success(Text("3.5"))
    ensures var holder := ReadHolder(map[ConverterKey(StringClass, String) := 1, ConverterKey(StringClass, Number) := 2],
                                     GlobalConfiguration(0));
            var cells := map[0 := Cell(String, TextPayload("a"), Null), 1 := Cell(Empty, NoPayload, Null),
                             2 := Cell(Number, NumberPayload(3.5), Null)];
            forall r :: RowOutcome(cells, holder, run, r) ==>
              r == Success(map[0 := Some("a"), 1 := None, 2 := Some("3.5")])
  {
    var holder := ReadHolder(map[ConverterKey(StringClass, String) := 1, ConverterKey(StringClass, Number) := 2],
                             GlobalConfiguration(0));
    var cells := map[0 := Cell(String, TextPayload("a"), Null), 1 := Cell(Empty, NoPayload, Null),
                     2 := Cell(Number, NumberPayload(3.5), Null)];
    assert EntryText(cells[0], holder, run) == Success(Some("a"));
    assert EntryText(cells[1], holder, run) == Success(None);
    assert EntryText(cells[2], holder, run) == Success(Some("3.5"));
    assert AllEntriesConvert(cells, holder, run);
    assert RowText(cells, holder, run) == map[0 := Some("a"), 1 := None, 2 := Some("3.5")];
  }

  /** A row with a String cell and an Error cell, and a String converter
      only: whatever the visiting order, the outcome is "converter not
      found" for the Error kind, and no map is returned. */
  lemma MissingConverterExample(run: Routines)
    requires run(1, Cell(String, TextPayload("a"), Null), None, GlobalConfiguration(0)) == Success(Text("a"))
    ensures var holder := ReadHolder(map[ConverterKey(StringClass, String) := 1], GlobalConfiguration(0));
            var cells := map[0 := Cell(String, TextPayload("a"), Null), 1 := Cell(Error, NoPayload, Null)];
            forall r :: RowOutcome(cells, holder, run, r) ==> r == Failure(ConverterNotFound(Error, StringClass))
  {
    var holder := ReadHolder(map[ConverterKey(StringClass, String) := 1], GlobalConfiguration(0));
    var cells := map[0 := Cell(String, TextPayload("a"), Null), 1 := Cell(Error, NoPayload, Null)];
    assert EntryText(cells[0], holder, run).Success?;
    assert EntryText(cells[1], holder, run) == Failure(ConverterNotFound(Error, StringClass));
  }
}
