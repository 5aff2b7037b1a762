/**
 * The form fields of an upload request as handleMultipartUploadRequest reads
 * them: `chunk` and `chunks` through Integer.valueOf, `name` through
 * FilenameUtils.getName, every other field ignored. A field's value is the
 * whole of its stream read as text, one character per byte.
 */
module FormFields {
  import opened Common
  import opened Input

  // ---------------------------------------------------------------------
  // Integer.valueOf and its inverse, Integer.toString
  // ---------------------------------------------------------------------

  predicate IsDigit(c: char)
  {
    '0' <= c <= '9'
  }

  predicate AllDigits(s: string)
  {
    forall i :: 0 <= i < |s| ==> IsDigit(s[i])
  }

  /** The value of a run of decimal digits, most significant first. */
  function DigitsValue(s: string): nat
    requires AllDigits(s)
  {
    if s == [] then 0
    else DigitsValue(s[..|s| - 1]) * 10 + (s[|s| - 1] as int - '0' as int)
  }

  /**
   * `Integer.valueOf(String)`: an optional sign, then at least one digit,
   * and a value that fits a Java int; anything else is a
   * NumberFormatException, here None.
   */
  function ParseInt(s: string): (r: Option<int>)
    ensures r.Some? ==> IntMin <= r.value <= IntMax
    ensures r.Some? ==> s != [] && (s[0] == '-' || s[0] == '+' || IsDigit(s[0]))
  {
    if s == [] then None
    else
      var digits := if s[0] == '-' || s[0] == '+' then s[1..] else s;
      if digits == [] || !AllDigits(digits) then None
      else
        var v: int := if s[0] == '-' then -(DigitsValue(digits) as int) else DigitsValue(digits);
        if IntMin <= v <= IntMax then Some(v) else None
  }

  function Digit(d: nat): char
    requires d < 10
  {
    ('0' as int + d) as char
  }

  /** `Integer.toString` of a non-negative value: its decimal digits, without leading zeros. */
  function ShowNat(n: nat): (s: string)
    ensures s != [] && AllDigits(s)
  {
    if n < 10 then [Digit(n)] else ShowNat(n / 10) + [Digit(n % 10)]
  }

  /** `Integer.toString(int)`. */
  function Show(n: int): string
  {
    if n < 0 then "-" + ShowNat(-n) else ShowNat(n)
  }

  /** The digits of ShowNat(n) spell n. */
  lemma {:induction false} ShowNatValue(n: nat)
    ensures DigitsValue(ShowNat(n)) == n
  {
    var s := ShowNat(n);
    if n >= 10 {
      ShowNatValue(n / 10);
      assert s[..|s| - 1] == ShowNat(n / 10);
    }
  }

  /** Integer.valueOf reads back every int that Integer.toString writes. */
  lemma ParseShow(n: int)
    requires IntMin <= n <= IntMax
    ensures ParseInt(Show(n)) == Some(n)
  {
    var s := Show(n);
    if n < 0 {
      ShowNatValue(-n);
      assert s[1..] == ShowNat(-n);
    } else {
      ShowNatValue(n);
      assert IsDigit(s[0]);
    }
  }

  // ---------------------------------------------------------------------
  // FilenameUtils.getName
  // ---------------------------------------------------------------------

  predicate IsSeparator(c: char)
  {
    c == '/' || c == '\\'
  }

  /** `FilenameUtils.getName`: the part of a path after its last Unix or Windows separator. */
  function BaseName(path: string): string
  {
    if path == [] || IsSeparator(path[|path| - 1]) then []
    else BaseName(path[..|path| - 1]) + [path[|path| - 1]]
  }

  /**
   * The base name is the longest suffix of the path without a separator: a
   * suffix, free of separators, and either the whole path or preceded by a
   * separator.
   */
  lemma {:induction false} BaseNameSuffix(path: string)
    ensures var r := BaseName(path);
              |r| <= |path| && r == path[|path| - |r|..]
              && (forall i :: 0 <= i < |r| ==> !IsSeparator(r[i]))
              && (|r| < |path| ==> IsSeparator(path[|path| - |r| - 1]))
  {
    if path != [] && !IsSeparator(path[|path| - 1]) {
      var n := |path| - 1;
      var front := path[..n];
      BaseNameSuffix(front);
      var b := BaseName(front);
      var r := b + [path[n]];
      assert BaseName(path) == r;
      assert path[n - |b|..] == front[n - |b|..] + [path[n]];
      forall i | 0 <= i < |r|
        ensures !IsSeparator(r[i])
      {
        if i < |b| {
          assert r[i] == b[i];
        }
      }
      if |b| < n {
        assert path[n - |b| - 1] == front[n - |b| - 1];
      }
    }
  }

  /** A path without separators is its own base name. */
  lemma BaseNamePlain(path: string)
    requires forall i :: 0 <= i < |path| ==> !IsSeparator(path[i])
    ensures BaseName(path) == path
  {
    BaseNameSuffix(path);
  }

  // ---------------------------------------------------------------------
  // Field values and the fields a request sets
  // ---------------------------------------------------------------------

  /** `Streams.asString` of the bytes read: one character per byte. */
  function Text(b: seq<byte>): (s: string)
    ensures |s| == |b| && forall i :: 0 <= i < |b| ==> s[i] as int == b[i] as int
  {
    seq(|b|, i requires 0 <= i < |b| => (b[i] as int) as char)
  }

  /** The bytes of a text whose characters all fit a byte (its inverse on such texts). */
  function Encode(s: string): (b: seq<byte>)
    requires forall i :: 0 <= i < |s| ==> s[i] as int < 256
    ensures Text(b) == s
  {
    seq(|s|, i requires 0 <= i < |s| => (s[i] as int) as byte)
  }

  /** The values the upload loop keeps: chunk number, chunk count, and the file name sent so far. */
  datatype Fields = Fields(chunk: int, chunks: int, fileName: Option<string>)

  /** Before any field is read: chunk 0 of 1, no file name. */
  const Defaults: Fields := Fields(0, 1, None)

  datatype Parsed = Ok(fields: Fields) | Err(e: Exception)

  /**
   * One form field: `name` is the field name (None for null), `body` its
   * stream. The switch on a null name raises a NullPointerException; the
   * three known names read the stream, the others leave it unread.
   */
  function FormStep(f: Fields, name: Option<string>, body: seq<ReadResult>): (r: Parsed)
    ensures name.None? ==> r == Err(NullPointer)
    ensures name.Some? && name.value !in {"chunk", "chunks", "name"} ==> r == Ok(f)
    ensures name.Some? && name.value in {"chunk", "chunks", "name"} && AllBytes(body).None? ==> r == Err(IOFault)
    ensures r.Ok? ==> (r.fields.chunk == f.chunk || name == Some("chunk"))
                      && (r.fields.chunks == f.chunks || name == Some("chunks"))
                      && (r.fields.fileName == f.fileName || name == Some("name"))
    ensures r.Err? ==> r.e in {NullPointer, IOFault, NumberFormat}
  {
    if name.None? then Err(NullPointer)
    else if name.value !in {"chunk", "chunks", "name"} then Ok(f)
    else match AllBytes(body)
      case None => Err(IOFault)
      case Some(v) =>
        var value := Text(v);
        if name.value == "name" then Ok(f.(fileName := Some(BaseName(value))))
        else match ParseInt(value)
          case None => Err(NumberFormat)
          case Some(n) => if name.value == "chunk" then Ok(f.(chunk := n)) else Ok(f.(chunks := n))
  }

  /** A field of one segment holding the decimal text of an int. */
  function DecimalField(n: int): seq<ReadResult>
  {
    [Bytes(Encode(Show(n)))]
  }

  /** A `chunk` or `chunks` field holding the decimal text of n sets that value to n, and nothing else. */
  lemma NumberField(f: Fields, n: int)
    requires IntMin <= n <= IntMax
    ensures FormStep(f, Some("chunk"), DecimalField(n)) == Ok(f.(chunk := n))
    ensures FormStep(f, Some("chunks"), DecimalField(n)) == Ok(f.(chunks := n))
  {
    var b := Encode(Show(n));
    assert AllBytes(DecimalField(n)) == Some(b) by {
      assert DecimalField(n)[1..] == [];
      assert b + [] == b;
    }
    ParseShow(n);
  }
}
