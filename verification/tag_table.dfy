/**
 * The semicolon-separated tag table (ImportExportTags.cs): its columns, the
 * text of every kind of cell, and the parsers import applies to that text.
 *
 * .NET reflection over the driver tag classes is replaced by a `Schema`: for
 * each driver, the properties its tag class declares, in declaration order,
 * with their type, whether they can be written and the value a freshly made
 * tag holds.
 */
module TagTable {
  import opened Wrappers
  import opened Text
  import opened Nodes

  const Separator: char := ';'
  const ArrayLengthSeparator: char := ','
  const PathSeparator: char := '/'

  /** The five columns every table starts with, before the driver's own properties. */
  const FixedColumns: seq<string> := ["Type", "BrowseName", "BrowsePath", "NodeDataType", "ArrayLength"]

  const TagStructureTypeName: string := "FTOptix.CommunicationDriver.TagStructure"

  // ---------------------------------------------------------------------------
  // Driver tag classes and their properties
  // ---------------------------------------------------------------------------

  /** `GetType().FullName` of a driver's tag class. */
  function DriverTypeName(d: Driver): string
  {
    match d
    case S7Tcp => "FTOptix.S7TCP.Tag"
    case Codesys => "FTOptix.CODESYS.Tag"
    case Modbus => "FTOptix.Modbus.Tag"
    case RAEtherNetIP => "FTOptix.RAEtherNetIP.Tag"
  }

  /** The `if … else if … else throw` chain that picks the tag class to make from the Type cell. */
  function DriverOfTypeName(s: string): (r: Option<Driver>)
    ensures r.Some? ==> DriverTypeName(r.value) == s
    ensures r.None? ==> forall d: Driver :: DriverTypeName(d) != s
  {
    if s == "FTOptix.S7TCP.Tag" then Some(S7Tcp)
    else if s == "FTOptix.CODESYS.Tag" then Some(Codesys)
    else if s == "FTOptix.Modbus.Tag" then Some(Modbus)
    else if s == "FTOptix.RAEtherNetIP.Tag" then Some(RAEtherNetIP)
    else None
  }

  /** The type of a declared property, as far as import tells types apart. */
  datatype PropType =
    | PInt16 | PInt32 | PUInt16 | PUInt32 | PByte | PBoolean | PString
    | PEnum(enumName: string, symbols: seq<string>)
    | PVariable  // a property whose type is IUAVariable
    | POther     // any other type: import leaves it alone

  datatype PropertyDecl = PropertyDecl(name: string, ptype: PropType, canWrite: bool, default: PropValue)

  /** The properties each driver's tag class declares (not inherited ones), in declaration order. */
  type Schema = Driver -> seq<PropertyDecl>

  /** `xs` without repetitions, keeping each first occurrence (`Distinct()`, and a `HashSet` filled in order). */
  function Distinct(xs: seq<string>): (r: seq<string>)
    ensures forall x :: x in r <==> x in xs
    ensures NoDuplicates(r)
    decreases |xs|
  {
    if |xs| == 0 then []
    else
      var r := Distinct(xs[..|xs| - 1]);
      assert forall x :: x in xs <==> x in xs[..|xs| - 1] || x == xs[|xs| - 1];
      if xs[|xs| - 1] in r then r else r + [xs[|xs| - 1]]
  }

  predicate NoDuplicates(xs: seq<string>)
  {
    forall i, j | 0 <= i < j < |xs| :: xs[i] != xs[j]
  }

  /** `GetPropertiesNamesFromTagType`: the names of the declared properties that are not IUAVariable-typed. */
  function PropertyNames(decls: seq<PropertyDecl>): (r: seq<string>)
    ensures forall x :: x in r <==> exists i | 0 <= i < |decls| :: decls[i].name == x && !decls[i].ptype.PVariable?
    ensures NoDuplicates(r)
  {
    var names := seq(|decls|, i requires 0 <= i < |decls| => decls[i].name);
    var kept := seq(|decls|, i requires 0 <= i < |decls| => !decls[i].ptype.PVariable?);
    assert forall i | 0 <= i < |decls| :: names[i] == decls[i].name && kept[i] == !decls[i].ptype.PVariable?;
    Distinct(Filter(names, kept))
  }

  /** The names whose flag is set, in order. */
  function Filter(names: seq<string>, kept: seq<bool>): (r: seq<string>)
    requires |kept| == |names|
    ensures forall x :: x in r <==> exists i | 0 <= i < |names| :: names[i] == x && kept[i]
    ensures |r| <= |names|
    decreases |names|
  {
    if |names| == 0 then []
    else
      var rest := Filter(names[1..], kept[1..]);
      assert forall i | 1 <= i < |names| :: names[1..][i - 1] == names[i] && kept[1..][i - 1] == kept[i];
      if kept[0] then [names[0]] + rest else rest
  }

  /** `ComposeCustomAndNativeTagPropertiesNames`: the header's column names for a driver. */
  function HeaderColumns(schema: Schema, d: Driver): (r: seq<string>)
    ensures |r| >= 5 && r[..5] == FixedColumns
    ensures r[5..] == PropertyNames(schema(d))
  {
    FixedColumns + PropertyNames(schema(d))
  }

  /** `Array.IndexOf`: the first position of `key`, or -1. */
  function IndexOf(a: seq<string>, key: string): (r: int)
    ensures -1 <= r < |a|
    ensures r == -1 <==> key !in a
    ensures r >= 0 ==> a[r] == key && key !in a[..r]
    decreases |a|
  {
    if |a| == 0 then -1
    else if a[0] == key then 0
    else
      var r := IndexOf(a[1..], key);
      assert key !in a[..1];
      if r == -1 then -1
      else
        assert a[..r + 1] == a[..1] + a[1..][..r];
        r + 1
  }

  /** `values[GetElementIndex(header, column)]`; fails when the column is missing or the row too short. */
  function Field(values: seq<string>, header: seq<string>, column: string): (r: Option<string>)
    ensures r.Some? <==> 0 <= IndexOf(header, column) < |values|
    ensures r.Some? ==> r.value == values[IndexOf(header, column)]
  {
    var i := IndexOf(header, column);
    if 0 <= i < |values| then Some(values[i]) else None
  }

  // ---------------------------------------------------------------------------
  // Data types
  // ---------------------------------------------------------------------------

  /** The browse name of a data type's node, the NodeDataType cell. */
  function DataTypeName(dt: DataType): string
  {
    match dt
    case Boolean => "Boolean"
    case SByte => "SByte"
    case Byte => "Byte"
    case Int16 => "Int16"
    case UInt16 => "UInt16"
    case Int32 => "Int32"
    case UInt32 => "UInt32"
    case Int64 => "Int64"
    case UInt64 => "UInt64"
    case Float => "Float"
    case Double => "Double"
    case String => "String"
    case DateTime => "DateTime"
    case Structure => "Structure"
    case BaseDataType => "BaseDataType"
  }

  /** The .NET type codes `GetOpcUaDataType` switches on. */
  datatype NetTypeCode =
    | TcBoolean | TcSByte | TcByte | TcInt16 | TcUInt16 | TcInt32 | TcUInt32 | TcInt64 | TcUInt64
    | TcSingle | TcDouble | TcString | TcDateTime | TcObject | TcOther

  /**
   * The type code of the .NET type the host associates with a data type
   * name: each built-in scalar type has its own, Structure and BaseDataType
   * map to object; any other name is unknown and the lookup throws.
   */
  function NetTypeOf(name: string): (r: Option<NetTypeCode>)
    ensures r.None? ==> forall dt: DataType :: DataTypeName(dt) != name
  {
    if name == "Boolean" then Some(TcBoolean)
    else if name == "SByte" then Some(TcSByte)
    else if name == "Byte" then Some(TcByte)
    else if name == "Int16" then Some(TcInt16)
    else if name == "UInt16" then Some(TcUInt16)
    else if name == "Int32" then Some(TcInt32)
    else if name == "UInt32" then Some(TcUInt32)
    else if name == "Int64" then Some(TcInt64)
    else if name == "UInt64" then Some(TcUInt64)
    else if name == "Float" then Some(TcSingle)
    else if name == "Double" then Some(TcDouble)
    else if name == "String" then Some(TcString)
    else if name == "DateTime" then Some(TcDateTime)
    else if name == "Structure" || name == "BaseDataType" then Some(TcObject)
    else
      assert forall dt: DataType :: DataTypeName(dt) != name;
      None
  }

  /** `GetOpcUaDataType`'s switch: every code it does not list gives BaseDataType. */
  function OpcUaDataTypeOf(code: NetTypeCode): DataType
  {
    match code
    case TcSByte => SByte
    case TcInt16 => Int16
    case TcInt32 => Int32
    case TcInt64 => Int64
    case TcByte => Byte
    case TcUInt16 => UInt16
    case TcUInt32 => UInt32
    case TcUInt64 => UInt64
    case TcBoolean => Boolean
    case TcDouble => Double
    case TcSingle => Float
    case TcString => String
    case TcDateTime => DateTime
    case _ => BaseDataType
  }

  /** `GetOpcUaDataType(name)`: fails on an unknown name. */
  function GetOpcUaDataType(name: string): (r: Option<DataType>)
    ensures r.Some? <==> NetTypeOf(name).Some?
  {
    match NetTypeOf(name)
    case Some(code) => Some(OpcUaDataTypeOf(code))
    case None => None
  }

  // ---------------------------------------------------------------------------
  // Array lengths
  // ---------------------------------------------------------------------------

  /** The ArrayLength cell of a tag: "", "n", or "d0,d1" (later dimensions are not written). */
  function ArrayLengthText(dims: seq<nat>): string
  {
    if |dims| == 0 then ""
    else if |dims| == 1 then NatToString(dims[0])
    else NatToString(dims[0]) + [ArrayLengthSeparator] + NatToString(dims[1])
  }

  /** The ArrayLength cell of a tag structure: "" for no dimensions or a zero first one, else the first. */
  function StructureLengthText(dims: seq<nat>): string
  {
    if |dims| == 0 || dims[0] == 0 then "" else NatToString(dims[0])
  }

  /** `SetTagArrayDimensions` on a non-empty cell: two dimensions when it holds a comma, one otherwise. */
  function ParseArrayDimensions(text: string): (r: Option<seq<nat>>)
    ensures r.Some? ==> 1 <= |r.value| <= 2 && forall i | 0 <= i < |r.value| :: r.value[i] <= UInt32Max
    ensures r.Some? && ArrayLengthSeparator !in text ==> |r.value| == 1
  {
    if ArrayLengthSeparator in text then
      var parts := Split(text, ArrayLengthSeparator);
      if |parts| < 2 then None
      else
        match (ParseUInt32(parts[0]), ParseUInt32(parts[1]))
        case (Some(d0), Some(d1)) => Some([d0, d1])
        case _ => None
    else
      match ParseUInt32(text)
      case Some(d) => Some([d])
      case None => None
  }

  // ---------------------------------------------------------------------------
  // Browse paths
  // ---------------------------------------------------------------------------

  /**
   * `GetBrowsePath(startingNode, node, "/")`, `names` running from the
   * starting node down to the node: the starting node's name alone, or the
   * owner's path, "/" and the node's name.
   */
  function BrowsePath(names: seq<string>): string
    decreases |names|
  {
    if |names| == 0 then ""
    else if |names| == 1 then names[0]
    else BrowsePath(names[..|names| - 1]) + [PathSeparator] + names[|names| - 1]
  }

  /**
   * The names `GetOwnerNode` walks: the non-empty segments of the path
   * without the first (the starting node) and the last (the node itself).
   * Fewer than two segments make the array allocation throw.
   */
  function OwnerSegments(path: string): (r: Option<seq<string>>)
    ensures r.Some? ==> |r.value| + 2 == |SplitNonEmpty(path, PathSeparator)|
  {
    var raw := SplitNonEmpty(path, PathSeparator);
    if |raw| < 2 then None else Some(raw[1..|raw| - 1])
  }

  // ---------------------------------------------------------------------------
  // Property cells
  // ---------------------------------------------------------------------------

  /** `ToString()` of a property value; a null property is written as "". */
  function PropText(v: PropValue): string
  {
    match v
    case Null => ""
    case IntVal(i) => IntToString(i)
    case BoolVal(b) => if b then "True" else "False"
    case TextVal(s) => s
    case EnumVal(symbol) => symbol
  }

  /** `Boolean.Parse`: "true" or "false" in any letter case. */
  function ParseBool(v: string): (r: Option<bool>)
    ensures r.Some? ==> ToLower(v) == if r.value then "true" else "false"
  {
    var l := ToLower(v);
    if l == "true" then Some(true) else if l == "false" then Some(false) else None
  }

  /**
   * The value import gives a property from a non-empty cell, by the
   * property's type: `Some(None)` leaves the property as it is, `None` is a
   * parse failure that ends the row.
   */
  function ParseProp(t: PropType, v: string): (r: Option<Option<PropValue>>)
    ensures r == Some(None) <==> t.PVariable? || t.POther? || (t.PEnum? && t.enumName == "ValueRank")
  {
    match t
    case PEnum(enumName, symbols) =>
      if enumName == "ValueRank" then Some(None)
      else if v in symbols then Some(Some(EnumVal(v))) else None
    case PInt16 => IntProp(ParseInRange(v, -0x8000, 0x7FFF))
    case PInt32 => IntProp(ParseInRange(v, -0x8000_0000, 0x7FFF_FFFF))
    case PUInt16 => IntProp(ParseInRange(v, 0, 0xFFFF))
    case PUInt32 => IntProp(ParseInRange(v, 0, 0xFFFF_FFFF))
    case PByte => IntProp(ParseInRange(v, 0, 0xFF))
    case PBoolean =>
      (match ParseBool(v)
       case Some(b) => Some(Some(BoolVal(b)))
       case None => None)
    case PString => Some(Some(TextVal(v)))
    case PVariable => Some(None)
    case POther => Some(None)
  }

  function IntProp(r: Option<int>): Option<Option<PropValue>>
  {
    match r
    case Some(i) => Some(Some(IntVal(i)))
    case None => None
  }

  /** The range of values a property of an integer type can hold. */
  predicate InRange(t: PropType, i: int)
  {
    match t
    case PInt16 => -0x8000 <= i <= 0x7FFF
    case PInt32 => -0x8000_0000 <= i <= 0x7FFF_FFFF
    case PUInt16 => 0 <= i <= 0xFFFF
    case PUInt32 => 0 <= i <= 0xFFFF_FFFF
    case PByte => 0 <= i <= 0xFF
    case _ => false
  }

  /**
   * The value the row gives property `decl`: the parsed cell when the
   * property can be written, has a column inside the row and a non-empty
   * cell that its type parses to a value; `None` when the property is left
   * as it is.
   */
  function CellValue(decl: PropertyDecl, header: seq<string>, values: seq<string>): Option<PropValue>
  {
    var i := IndexOf(header, decl.name);
    if decl.canWrite && 0 <= i < |values| && values[i] != "" then
      match ParseProp(decl.ptype, values[i])
      case Some(Some(v)) => Some(v)
      case _ => None
    else None
  }

  /**
   * Property `decl` ends the row: it can be written and has a column, but
   * the column lies past the end of the row (the index throws) or the cell is
   * non-empty and its type cannot parse it.
   */
  predicate CellFails(decl: PropertyDecl, header: seq<string>, values: seq<string>)
  {
    var i := IndexOf(header, decl.name);
    decl.canWrite && i != -1 && (i >= |values| || (values[i] != "" && ParseProp(decl.ptype, values[i]).None?))
  }

  /**
   * One pass of the property loop of `GenerateTag`: a property that cannot
   * be written, has no column, or has an empty cell is skipped; a cell the
   * property's type cannot parse (or a column past the end of the row) ends
   * the row with a failure.
   */
  function ImportProperty(props: map<string, PropValue>, decl: PropertyDecl, header: seq<string>, values: seq<string>)
    : (r: Option<map<string, PropValue>>)
    ensures r.None? <==> CellFails(decl, header, values)
    ensures r.Some? && CellValue(decl, header, values).Some? ==> r.value == props[decl.name := CellValue(decl, header, values).value]
    ensures r.Some? && CellValue(decl, header, values).None? ==> r.value == props
  {
    if !decl.canWrite then Some(props)
    else
      var i := IndexOf(header, decl.name);
      if i == -1 then Some(props)
      else if i >= |values| then None
      else if values[i] == "" then Some(props)
      else
        match ParseProp(decl.ptype, values[i])
        case None => None
        case Some(None) => Some(props)
        case Some(Some(v)) => Some(props[decl.name := v])
  }

  /** The whole property loop, declaration after declaration. */
  function ImportProperties(props: map<string, PropValue>, decls: seq<PropertyDecl>, header: seq<string>, values: seq<string>)
    : (r: Option<map<string, PropValue>>)
    decreases |decls|
  {
    if |decls| == 0 then Some(props)
    else
      match ImportProperty(props, decls[0], header, values)
      case None => None
      case Some(p) => ImportProperties(p, decls[1..], header, values)
  }

  /** The properties of a freshly made tag: each declared property at its default. */
  function Defaults(decls: seq<PropertyDecl>): (r: map<string, PropValue>)
    ensures forall n :: n in r <==> Declared(decls, n).Some?
    ensures forall n | n in r :: r[n] == Declared(decls, n).value.default
    decreases |decls|
  {
    if |decls| == 0 then map[]
    else Defaults(decls[1..])[decls[0].name := decls[0].default]
  }

  /** The first declaration of a property named `name`. */
  function Declared(decls: seq<PropertyDecl>, name: string): (r: Option<PropertyDecl>)
    ensures r.Some? ==> r.value in decls && r.value.name == name
    ensures r.None? <==> forall i | 0 <= i < |decls| :: decls[i].name != name
    decreases |decls|
  {
    if |decls| == 0 then None
    else if decls[0].name == name then Some(decls[0])
    else Declared(decls[1..], name)
  }

  /** `GetPropertyValue(tag, name)`: an unset entry reads as null. */
  function PropOf(props: map<string, PropValue>, name: string): (r: PropValue)
    ensures name in props ==> r == props[name]
    ensures name !in props ==> r == Null
  {
    if name in props then props[name] else Null
  }
}
