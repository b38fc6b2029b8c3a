/** Values that travel through the pipeline: tagged values, items, and the two identity callbacks. */
module Values {

  datatype Option<+T> = None | Some(value: T)

  const TWO32: nat := 0x1_0000_0000
  const TWO64: nat := 0x1_0000_0000_0000_0000

  /** A 32-bit identifier: RIDataId, RICapabilityId, RIFacadeId and route ids all have this shape. */
  type Id = x: int | 0 <= x < 0x1_0000_0000

  type Byte = x: int | 0 <= x < 256

  const INVALID_DATA_ID: Id := 0xFFFF_FFFF

  datatype ValueType =
    | BoolType | Int32Type | UInt32Type | Int64Type | UInt64Type | DoubleType | StringType
    | BinaryType | StructType | ArrayType | ObjectType

  type Int32 = x: int | -0x8000_0000 <= x < 0x8000_0000
  type UInt32 = x: int | 0 <= x < 0x1_0000_0000
  type Int64 = x: int | -0x8000_0000_0000_0000 <= x < 0x8000_0000_0000_0000
  type UInt64 = x: int | 0 <= x < TWO64

  /** RIMValue: a type tag with the union member that the tag selects.  A string is the address of
      its characters, because that is what the code compares; a double is an exact real. */
  datatype RIMValue =
    | BoolValue(b: bool)
    | Int32Value(i32: Int32)
    | UInt32Value(u32: UInt32)
    | Int64Value(i64: Int64)
    | UInt64Value(u64: UInt64)
    | DoubleValue(d: real)
    | StringValue(address: nat)
    | BinaryValue(bytes: seq<Byte>)
    | StructValue(structWord: int)
    | ArrayValue(arrayWord: int)
    | ObjectValue(objectWord: int)
  {
    function Type(): ValueType {
      match this
      case BoolValue(_) => BoolType
      case Int32Value(_) => Int32Type
      case UInt32Value(_) => UInt32Type
      case Int64Value(_) => Int64Type
      case UInt64Value(_) => UInt64Type
      case DoubleValue(_) => DoubleType
      case StringValue(_) => StringType
      case BinaryValue(_) => BinaryType
      case StructValue(_) => StructType
      case ArrayValue(_) => ArrayType
      case ObjectValue(_) => ObjectType
    }
  }

  /** `RIMValue{}`: tag 0 and a zeroed union. */
  const EMPTY_VALUE := BoolValue(false)

  function ZeroOf(ty: ValueType): (v: RIMValue)
    ensures v.Type() == ty
  {
    match ty
    case BoolType => BoolValue(false)
    case Int32Type => Int32Value(0)
    case UInt32Type => UInt32Value(0)
    case Int64Type => Int64Value(0)
    case UInt64Type => UInt64Value(0)
    case DoubleType => DoubleValue(0.0)
    case StringType => StringValue(0)
    case BinaryType => BinaryValue([])
    case StructType => StructValue(0)
    case ArrayType => ArrayValue(0)
    case ObjectType => ObjectValue(0)
  }

  /** `value.type = ty`.  Giving a value a tag it does not carry makes later reads select a union
      member that was never written, which C++ leaves undefined; the model reads zero there. */
  function Retag(v: RIMValue, ty: ValueType): (r: RIMValue)
    ensures r.Type() == ty
    ensures v.Type() == ty ==> r == v
  {
    if v.Type() == ty then v else ZeroOf(ty)
  }

  /** RIMDataItem. */
  datatype RIMDataItem = RIMDataItem(id: Id, value: RIMValue)

  /** NotificationTarget.  The type and id also name the one place where that kind of value is stored. */
  datatype TargetType = Capability | Data | Facade
  datatype Target = Target(kind: TargetType, id: Id)

  type StoreCallback = (RIMValue, RIMValue) -> RIMValue
  type DiffCallback = (RIMValue, RIMValue) -> bool

  function IdentityStore(current: RIMValue, setValue: RIMValue): RIMValue {
    setValue
  }

  /** True when the two values differ.  Structs, arrays and objects always count as different. */
  function IdentityDiff(lhs: RIMValue, rhs: RIMValue): bool {
    if lhs.Type() != rhs.Type() then true
    else
      match lhs
      case BoolValue(b) => b != rhs.b
      case Int32Value(i) => i != rhs.i32
      case UInt32Value(u) => u != rhs.u32
      case Int64Value(i) => i != rhs.i64
      case UInt64Value(u) => u != rhs.u64
      case DoubleValue(d) => d != rhs.d
      case StringValue(a) => a != rhs.address
      case BinaryValue(bytes) => |bytes| != |rhs.bytes| || bytes != rhs.bytes
      case StructValue(_) => true
      case ArrayValue(_) => true
      case ObjectValue(_) => true
  }

  /** A diff that never calls two different values the same. */
  ghost predicate NeverHidesAChange(diff: DiffCallback) {
    forall a, b :: !diff(a, b) ==> a == b
  }
}
