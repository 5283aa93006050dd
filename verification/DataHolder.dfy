/**
 One request of the server's request map. `Holder` is its value; class `DataHolder` is the
 byte-buffer implementation behind it.
 */
module DataHolders {
  import opened Protocol

  /** `wire` is what goes to the device. `slack` is the byte of the buffer right after it, which no
      constructor sets but which copying and comparing both take along. */
  datatype Holder = Holder(wire: seq<Byte>, slack: Byte, priority: int, dependent: bool)

  const MAX_DATA_SIZE: nat := 40

  class DataHolder {
    const data: array<Byte>
    var length: nat
    var priority: int
    var dependent: bool

    ghost predicate Valid()
      reads this
    {
      data.Length == MAX_DATA_SIZE && 1 <= length < MAX_DATA_SIZE
    }

    function Value(): Holder
      reads this, data
      requires Valid()
    {
      Holder(data[..length], data[length], priority, dependent)
    }

    /** Copies a payload behind the request code. The byte after the payload keeps whatever the
        memory held. */
    constructor (request: Byte, priority: int, dependent: bool, payload: seq<Byte>)
      requires |payload| + 2 <= MAX_DATA_SIZE
      ensures Valid() && fresh(data)
      ensures Value().wire == [request] + payload
      ensures Value().priority == priority && Value().dependent == dependent
    {
      data := new Byte[MAX_DATA_SIZE];
      this.length := |payload| + 1;
      this.priority := priority;
      this.dependent := dependent;
      new;
      data[0] := request;
      var idx := 1;
      while idx <= |payload|
        invariant 1 <= idx <= |payload| + 1
        invariant data[..idx] == [request] + payload[..idx - 1]
        modifies data
      {
        data[idx] := payload[idx - 1];
        idx := idx + 1;
      }
    }

    /** Assignment: copies `length + 1` bytes, so the slack byte travels with the value. */
    method Assign(right: DataHolder)
      requires Valid() && right.Valid() && data != right.data
      modifies this, data
      ensures Valid() && Value() == old(right.Value())
    {
      length := right.length;
      priority := right.priority;
      dependent := right.dependent;
      var i := 0;
      while i < length + 1
        invariant 0 <= i <= length + 1
        invariant data[..i] == old(right.data[..])[..i]
        modifies data
      {
        data[i] := right.data[i];
        i := i + 1;
      }
      assert data[..length] == data[..length + 1][..length] && data[length] == data[..length + 1][length];
    }

    /** Compares the fields and then `length + 1` bytes. */
    method Equals(right: DataHolder) returns (equal: bool)
      requires Valid() && right.Valid()
      ensures equal <==> Value() == right.Value()
    {
      if priority != right.priority || length != right.length || dependent != right.dependent {
        return false;
      }
      var i := 0;
      while i < length + 1
        invariant 0 <= i <= length + 1
        invariant data[..i] == right.data[..i]
      {
        if data[i] != right.data[i] {
          if i < length {
            assert Value().wire[i] != right.Value().wire[i];
          }
          return false;
        }
        i := i + 1;
      }
      assert data[..length] == data[..length + 1][..length] == right.data[..length];
      assert data[length] == data[..length + 1][length] == right.data[length];
      return true;
    }

    method AppendTo(vec: seq<Byte>) returns (longer: seq<Byte>)
      requires Valid()
      ensures longer == vec + Value().wire
    {
      longer := vec + data[..length];
    }
  }
}
