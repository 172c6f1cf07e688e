/** The entities the converter utilities read: tagged cells, destination
    fields, content properties, the converter registry and the read holder.
    The converters themselves are opaque: what a converter does is given by
    a `Routines` function supplied by the caller. */
module Excel {
  import opened Wrappers

  /** The kind tag of a cell (CellDataTypeEnum). Only `Empty` is treated
      specially by the converter utilities. */
  datatype Kind = String | DirectString | Number | Boolean | Empty | Error | Image

  /** The fully qualified name of a class other than String and CellData.
      Those two have constructors of their own in `TypeId`, so each class
      has exactly one representation. */
  type ClassName = s: string | s != "java.lang.String" && s != "com.alibaba.excel.metadata.CellData"
    witness "java.lang.Object"

  /** A Java class, as far as the converter utilities tell classes apart:
      `String.class`, `CellData.class`, or any other class by its name. */
  datatype TypeId = StringClass | CellDataClass | OtherClass(name: ClassName)

  /** The raw payload a reader stores in a cell. */
  datatype Payload = NoPayload | TextPayload(text: string) | NumberPayload(number: real) | BooleanPayload(flag: bool)

  /** A Java object produced by a conversion: null, a String, a CellData
      wrapper, or an object of a class that is neither String nor CellData. */
  datatype Value = Null | Text(text: string) | Boxed(cell: Cell) | Object(cls: ClassName, id: nat)

  /** A CellData: its kind, its raw payload and its `data` slot, which
      `setData` overwrites. */
  datatype Cell = Cell(kind: Kind, payload: Payload, data: Value)

  /** What a converter call can throw. `ClassCastFailure` and
      `ExceptionThrown` are java.lang.Exception; `ErrorThrown` is a
      java.lang.Error, which `catch (Exception e)` does not catch. */
  datatype Throwable = ClassCastFailure | ExceptionThrown(name: string) | ErrorThrown(name: string)
  {
    predicate IsException() { !ErrorThrown? }
  }

  /** The failures of the converter utilities. The source throws
      ExcelDataConvertException for the first two and tells them apart only
      by message and cause; `Propagated` is a throwable that escapes
      without being wrapped. */
  datatype ConvertError =
    | ConverterNotFound(kind: Kind, target: TypeId)
    | ConversionFailed(cause: Throwable, cell: Cell, target: TypeId)
    | Propagated(thrown: Throwable)

  /** The identity of a converter object. */
  type ConverterId = nat

  /** The registry key built from (destination class, cell kind). */
  datatype ConverterKey = ConverterKey(target: TypeId, kind: Kind)

  /** The converter map: at most one converter per key. */
  type Registry = map<ConverterKey, ConverterId>

  /** GlobalConfiguration, passed through to converters unread. */
  datatype GlobalConfiguration = GlobalConfiguration(id: nat)

  /** ExcelContentProperty: the per-field converter override and the other
      settings (formats and the like) that converters may read. */
  datatype ContentProperty = ContentProperty(converter: Option<ConverterId>, settings: nat)

  /** The first type argument of a parameterized `CellData<...>` field type:
      a plain class (`CellData<Integer>`), a parameterized type
      (`CellData<List<X>>`, whose raw type is `raw`), or anything else
      (a wildcard, a type variable, a generic array). */
  datatype TypeArgument = ClassArgument(cls: TypeId) | ParameterizedArgument(raw: TypeId) | OtherArgument

  /** The generic type of a field: a ParameterizedType with its first type
      argument, or anything that is not a ParameterizedType (a plain class,
      or a type variable such as `T extends CellData`, whose erasure is
      CellData.class). */
  datatype GenericType = NotParameterized | ParameterizedType(firstArgument: TypeArgument)

  /** A destination field, reduced to what the utilities read by
      reflection: its declared class and its generic type. */
  datatype Field = Field(declared: TypeId, generic: GenericType)

  /** ReadHolder: the converter map and the global configuration of a read. */
  datatype ReadHolder = ReadHolder(converters: Registry, config: GlobalConfiguration)

  /** What each converter does when `convertToJavaData(cell, property,
      configuration)` is called on it: return an object or throw. */
  type Routines = (ConverterId, Cell, Option<ContentProperty>, GlobalConfiguration) -> Result<Value, Throwable>
}
