/** utils.BytearrayStream: a buffer read from the front and written at the back. */
module Streams {
  import opened Bytes

  class BytearrayStream {
    var buffer: seq<byte>

    constructor (data: seq<byte>)
      ensures buffer == data
    {
      buffer := data;
    }

    /** Read up to n bytes: a short buffer gives what it has. */
    method Read(n: nat) returns (data: seq<byte>)
      modifies this
      ensures data + buffer == old(buffer)
      ensures |data| == n || (|data| < n && buffer == [])
    {
      var length := |buffer|;
      var m := n;
      if m > length {
        m := length;
      }
      data := buffer[0..m];
      buffer := buffer[m..];
    }

    method ReadAll() returns (data: seq<byte>)
      modifies this
      ensures data == old(buffer) && buffer == []
    {
      data := buffer;
      buffer := [];
    }

    /** Fill an array from the front; the rest of the array keeps its contents. */
    method ReadInto(b: array<byte>) returns (count: nat)
      modifies this, b
      ensures count == if b.Length <= |old(buffer)| then b.Length else |old(buffer)|
      ensures b[..count] + buffer == old(buffer)
      ensures b[count..] == old(b[count..])
    {
      count := if b.Length <= |buffer| then b.Length else |buffer|;
      for i := 0 to count
        modifies b
        invariant b[..i] == buffer[..i]
        invariant b[i..] == old(b[..])[i..]
      {
        b[i] := buffer[i];
      }
      buffer := buffer[count..];
    }

    method Peek(n: nat) returns (data: seq<byte>)
      ensures data <= buffer && (|data| == n || (|data| < n && data == buffer))
    {
      data := buffer[0..if n > |buffer| then |buffer| else n];
    }

    method Write(b: seq<byte>) returns (count: nat)
      modifies this
      ensures buffer == old(buffer) + b && count == |b|
    {
      var before := |buffer|;
      buffer := buffer + b;
      count := |buffer| - before;
    }
  }
}
