/**
 * Shared vocabulary: bytes as the Java streams see them, the exceptions the
 * upload code raises or catches, an Option type, and Java's 32-bit `int`
 * arithmetic.
 */
module Common {

  /** One octet of stream data (Java's `byte`, kept here as its unsigned value). */
  newtype byte = b: int | 0 <= b < 256

  datatype Option<+T> = None | Some(value: T)

  /** The exceptions of the modelled code, by Java class. */
  datatype Exception =
    | IllegalState              // java.lang.IllegalStateException
    | NullPointer               // java.lang.NullPointerException
    | IndexOutOfBounds          // java.lang.IndexOutOfBoundsException
    | BufferOverflow            // java.nio.BufferOverflowException
    | IOFault                   // java.io.IOException raised by a stream
    | NumberFormat              // java.lang.NumberFormatException (Integer.valueOf)
    | NoInputStream             // StreamVariable's NoInputStreamException
    | NoOutputStream            // StreamVariable's NoOutputStreamException
    | UploadInterrupted         // FileUploadHandler.UploadInterruptedException
    | UploadFailure(cause: Exception)   // FileUploadHandler.UploadException wrapping a cause
    | Runtime(message: string)  // java.lang.RuntimeException carrying a client message

  /** The last element of a non-empty sequence. */
  function Last<T>(s: seq<T>): T
    requires s != []
  {
    s[|s| - 1]
  }

  const IntMin: int := -0x8000_0000
  const IntMax: int := 0x7FFF_FFFF

  /** Java's `(byte) b` cast: keeps the low eight bits of `b`. */
  function ToByte(b: int): (r: byte)
    ensures (r as int - b) % 256 == 0
  {
    (b % 256) as byte
  }

  /** The value Java's 32-bit `int` arithmetic produces for the exact result `x`. */
  function Wrap32(x: int): (r: int)
    ensures IntMin <= r <= IntMax
    ensures (r - x) % 0x1_0000_0000 == 0
    ensures IntMin <= x <= IntMax ==> r == x
  {
    (x - IntMin) % 0x1_0000_0000 + IntMin
  }

  /** Adding to an already wrapped value wraps like adding to the exact one. */
  lemma WrapAdd(a: int, b: int)
    ensures Wrap32(Wrap32(a) + b) == Wrap32(a + b)
  {
    var m := 0x1_0000_0000;
    var q := (a - IntMin) / m;
    assert Wrap32(a) == a - q * m;
    assert Wrap32(a) + b - IntMin == (a + b - IntMin) - q * m;
    ModShift(a + b - IntMin, q);
  }

  lemma ModShift(x: int, q: int)
    ensures (x - q * 0x1_0000_0000) % 0x1_0000_0000 == x % 0x1_0000_0000
  {
  }

  /** The concatenation of a sequence of blocks, in order. */
  function Concat<T>(blocks: seq<seq<T>>): (r: seq<T>)
    ensures blocks == [] ==> r == []
  {
    if blocks == [] then [] else Concat(blocks[..|blocks| - 1]) + blocks[|blocks| - 1]
  }

  lemma {:induction false} ConcatAppend<T>(a: seq<seq<T>>, b: seq<seq<T>>)
    ensures Concat(a + b) == Concat(a) + Concat(b)
  {
    if b == [] {
      assert a + b == a;
    } else {
      var b' := b[..|b| - 1];
      assert (a + b)[..|a + b| - 1] == a + b';
      ConcatAppend(a, b');
    }
  }

  lemma ConcatCons<T>(x: seq<T>, rest: seq<seq<T>>)
    ensures Concat([x] + rest) == x + Concat(rest)
  {
    ConcatAppend([x], rest);
    assert Concat([x]) == Concat([]) + x;
  }

  lemma AppendAssoc<T>(a: seq<T>, b: seq<T>, c: seq<T>)
    ensures a + (b + c) == (a + b) + c
  {
  }
}
