/** The binary encoding of Hadoop Writables, kept at the level of the order of the fields. */
module Wire {

  /**
   * One field written by DataOutput.writeChar, writeInt, writeLong or writeDouble, or
   * by Text.write. Byte layout, lengths and character encoding are not modelled.
   */
  datatype Field =
    | CharField(c: char)
    | IntField(i: int)
    | LongField(l: int)
    | DoubleField(d: real)
    | TextField(t: string)
}
