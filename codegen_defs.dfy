/**
 * The values the code generator puts in a chunk's constant pool, and the
 * records that map bytecode back to source lines.
 */
module CodegenDefs {
  import opened Util
  import opened Heaps

  /** The tag of a value. */
  datatype ValueType = NUM | BOOL | OBJ | NIL

  /**
   * The member of a value's union that was last written. A number is kept as
   * its IEEE 754 bit pattern, which is all these operations do with it; an
   * object pointer is a heap object id or null.
   */
  datatype Payload = Number(bits: bv64) | Boolean(b: bool) | Object(obj: Option<ObjId>)

  datatype Value = Value(valueType: ValueType, payload: Payload)
  {
    /** The tag names the union member that holds the payload, and a nil value holds a null pointer. */
    predicate WellTagged()
    {
      match valueType
      case NUM => payload.Number?
      case BOOL => payload.Boolean?
      case OBJ => payload.Object?
      case NIL => payload == Object(None)
    }

    /** Value equality as written: it answers false for every pair of values. */
    function Equals(other: Value): (r: bool)
      ensures !r
    {
      false
    }
  }

  /** The default value: nil, with a null object pointer. */
  function DefaultValue(): (v: Value)
    ensures v.WellTagged() && v.valueType == NIL
  {
    Value(NIL, Object(None))
  }

  function NumberValue(num: bv64): (v: Value)
    ensures v.WellTagged() && v.valueType == NUM && v.payload.bits == num
  {
    Value(NUM, Number(num))
  }

  function BoolValue(b: bool): (v: Value)
    ensures v.WellTagged() && v.valueType == BOOL && v.payload.b == b
  {
    Value(BOOL, Boolean(b))
  }

  function ObjectValue(obj: Option<ObjId>): (v: Value)
    ensures v.WellTagged() && v.valueType == OBJ && v.payload.obj == obj
  {
    Value(OBJ, Object(obj))
  }

  /** Value::nil(). */
  function Nil(): (v: Value)
    ensures v == DefaultValue()
  {
    DefaultValue()
  }

  /**
   * A well-tagged value is made by exactly one constructor, from its own
   * payload: each constructor is the inverse of reading the payload back.
   */
  lemma WellTaggedIsConstructed(v: Value)
    requires v.WellTagged()
    ensures v.valueType == NUM <==> v.payload.Number? && v == NumberValue(v.payload.bits)
    ensures v.valueType == BOOL <==> v.payload.Boolean? && v == BoolValue(v.payload.b)
    ensures v.valueType == OBJ <==> v.payload.Object? && v == ObjectValue(v.payload.obj)
    ensures v.valueType == NIL <==> v == Nil()
  {
  }

  /** Different constructors never give the same value, and each keeps its argument apart. */
  lemma ConstructorsDistinct(n: bv64, n': bv64, b: bool, b': bool, o: Option<ObjId>, o': Option<ObjId>)
    ensures NumberValue(n) == NumberValue(n') <==> n == n'
    ensures BoolValue(b) == BoolValue(b') <==> b == b'
    ensures ObjectValue(o) == ObjectValue(o') <==> o == o'
    ensures NumberValue(n) != BoolValue(b) && NumberValue(n) != ObjectValue(o) && BoolValue(b) != ObjectValue(o)
    ensures Nil() != NumberValue(n) && Nil() != BoolValue(b) && Nil() != ObjectValue(o)
  {
  }

  /** equals does not even relate a value to itself. */
  lemma EqualsNotReflexive(v: Value)
    ensures !v.Equals(v)
  {
  }

  const TWO_64: int := 0x1_0000_0000_0000_0000

  newtype u64 = x: int | 0 <= x < TWO_64

  /** The source line and function name of the bytecode up to offset end. */
  datatype CodeLine = CodeLine(end: u64, line: u64, name: string)

  /** codeLine(): line and end 0, no name. */
  function DefaultCodeLine(): (c: CodeLine)
    ensures c.line == 0 && c.end == 0 && c.name == ""
  {
    CodeLine(0, 0, "")
  }

  /**
   * codeLine(line, name) does not set end; unsetEnd stands for whatever
   * value the field holds until the chunk writes it.
   */
  function CodeLineAt(line: u64, name: string, unsetEnd: u64): (c: CodeLine)
    ensures c.line == line && c.name == name && c.end == unsetEnd
  {
    CodeLine(unsetEnd, line, name)
  }
}
