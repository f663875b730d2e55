/** Register-word packing of `src/pyBEEP/utils.py`.

    A float32 value travels to and from the instrument as two 16-bit
    register words obtained by reinterpreting its four bytes in native
    (little-endian) order, so the first word is the low half of the bit
    pattern. The model works on the 32-bit pattern itself. */
module Words {
  import opened Common

  /** One 16-bit register word (a uint16 value). */
  type Word = x: int | 0 <= x < 0x1_0000

  /** The IEEE-754 single-precision bit pattern of a float32 value, read as
      an unsigned 32-bit integer. */
  type F32 = x: int | 0 <= x < 0x1_0000_0000

  /** One row of decoded ADC data: two float32 values. */
  datatype Pair = Pair(first: F32, second: F32)

  datatype ConvertError =
    | BufferSizeError   // an odd word count: `frombuffer` cannot form whole float32 values
    | ReshapeError      // an odd float count: `reshape(-1, 2)` cannot form whole rows

  /** Reassembles a float32 bit pattern from its low and high words. */
  function Join(lo: Word, hi: Word): (f: F32)
    ensures f % 0x1_0000 == lo && f / 0x1_0000 == hi
  {
    hi * 0x1_0000 + lo
  }

  /** `float_to_uint16_list`: the two words of a float32, low half first. */
  function FloatToWords(f: F32): (ws: seq<Word>)
    ensures |ws| == 2
    ensures Join(ws[0], ws[1]) == f
  {
    [f % 0x1_0000, f / 0x1_0000]
  }

  /** Joining two words and splitting them again gives the same words. */
  lemma WordsFloatRoundTrip(lo: Word, hi: Word)
    ensures FloatToWords(Join(lo, hi)) == [lo, hi]
  {
  }

  /** `astype(np.uint16)`: only the low 16 bits of each integer survive. */
  function CastWords(rd: seq<int>): (ws: seq<Word>)
    ensures |ws| == |rd|
    ensures forall k | 0 <= k < |rd| :: ws[k] == rd[k] % 0x1_0000
  {
    seq(|rd|, k requires 0 <= k < |rd| => rd[k] % 0x1_0000)
  }

  /** `frombuffer(..., float32)` on the bytes of a word array. */
  function WordsToFloats(ws: seq<Word>): (r: Result<seq<F32>, ConvertError>)
    ensures r.Ok? <==> |ws| % 2 == 0
    ensures r.Err? ==> r.error == BufferSizeError
    ensures r.Ok? ==> (|r.value| == |ws| / 2 &&
      forall k | 0 <= k < |r.value| :: r.value[k] == Join(ws[2 * k], ws[2 * k + 1]))
    decreases |ws|
  {
    if |ws| == 0 then Ok([])
    else if |ws| == 1 then Err(BufferSizeError)
    else
      match WordsToFloats(ws[2..])
      case Err(e) => Err(e)
      case Ok(rest) => Ok([Join(ws[0], ws[1])] + rest)
  }

  /** `reshape(-1, 2)`: consecutive floats grouped two per row. */
  function Reshape(fs: seq<F32>): (r: Result<seq<Pair>, ConvertError>)
    ensures r.Ok? <==> |fs| % 2 == 0
    ensures r.Err? ==> r.error == ReshapeError
    ensures r.Ok? ==> (|r.value| == |fs| / 2 &&
      forall k | 0 <= k < |r.value| :: r.value[k] == Pair(fs[2 * k], fs[2 * k + 1]))
    decreases |fs|
  {
    if |fs| == 0 then Ok([])
    else if |fs| == 1 then Err(ReshapeError)
    else
      match Reshape(fs[2..])
      case Err(e) => Err(e)
      case Ok(rest) => Ok([Pair(fs[0], fs[1])] + rest)
  }

  /** `convert_uint16_to_float32`: cast, reinterpret as float32, two per row. */
  function ConvertWords(rd: seq<int>): Result<seq<Pair>, ConvertError>
  {
    match WordsToFloats(CastWords(rd))
    case Err(e) => Err(e)
    case Ok(fs) => Reshape(fs)
  }

  /** The conversion succeeds exactly for a multiple of four words; an odd
      count fails in `frombuffer`, a count of 2 mod 4 in `reshape`. Row k is
      made of words 4k..4k+3, each float low word first. */
  lemma ConvertWordsSpec(rd: seq<int>)
    ensures ConvertWords(rd).Ok? <==> |rd| % 4 == 0
    ensures |rd| % 2 == 1 ==> ConvertWords(rd) == Err(BufferSizeError)
    ensures |rd| % 4 == 2 ==> ConvertWords(rd) == Err(ReshapeError)
    ensures ConvertWords(rd).Ok? ==>
      var rows := ConvertWords(rd).value;
      var ws := CastWords(rd);
      |rows| == |rd| / 4 &&
      forall k | 0 <= k < |rows| ::
        rows[k] == Pair(Join(ws[4 * k], ws[4 * k + 1]), Join(ws[4 * k + 2], ws[4 * k + 3]))
  {
    var ws := CastWords(rd);
    if |rd| % 2 == 0 {
      var fs := WordsToFloats(ws).value;
      if |rd| % 4 == 0 {
        var rows := Reshape(fs).value;
        forall k | 0 <= k < |rows|
          ensures rows[k] == Pair(Join(ws[4 * k], ws[4 * k + 1]), Join(ws[4 * k + 2], ws[4 * k + 3]))
        {
          assert rows[k] == Pair(fs[2 * k], fs[2 * k + 1]);
          assert fs[2 * k] == Join(ws[2 * (2 * k)], ws[2 * (2 * k) + 1]);
          assert fs[2 * k + 1] == Join(ws[2 * (2 * k + 1)], ws[2 * (2 * k + 1) + 1]);
        }
      }
    }
  }

  /** Round trip: the words of `a` followed by the words of `b` decode to
      exactly one row `[a, b]`, bit for bit. */
  lemma PackRoundTrip(a: F32, b: F32)
    ensures ConvertWords(AsInts(FloatToWords(a) + FloatToWords(b))) == Ok([Pair(a, b)])
  {
    var rd := AsInts(FloatToWords(a) + FloatToWords(b));
    ConvertWordsSpec(rd);
    var ws := CastWords(rd);
    assert ws == FloatToWords(a) + FloatToWords(b);
    var rows := ConvertWords(rd).value;
    assert |rows| == 1;
    assert rows[0] == Pair(Join(ws[0], ws[1]), Join(ws[2], ws[3]));
    assert Join(ws[0], ws[1]) == a && Join(ws[2], ws[3]) == b;
    assert rows == [Pair(a, b)];
  }

  /** Only the low 16 bits of each input integer matter. */
  lemma ConvertLowBitsOnly(rd1: seq<int>, rd2: seq<int>)
    requires |rd1| == |rd2|
    requires forall k | 0 <= k < |rd1| :: rd1[k] % 0x1_0000 == rd2[k] % 0x1_0000
    ensures ConvertWords(rd1) == ConvertWords(rd2)
  {
    assert CastWords(rd1) == CastWords(rd2);
  }

  /** Words read back from the device as Python integers. */
  function AsInts(ws: seq<Word>): (rd: seq<int>)
    ensures |rd| == |ws| && forall k | 0 <= k < |ws| :: rd[k] == ws[k]
  {
    seq(|ws|, k requires 0 <= k < |ws| => ws[k] as int)
  }

  /** Every float of a sequence in native word order, as written to the device. */
  function FloatsToWords(fs: seq<F32>): (ws: seq<Word>)
    ensures |ws| == 2 * |fs|
    ensures forall k | 0 <= k < |fs| :: ws[2 * k .. 2 * k + 2] == FloatToWords(fs[k])
  {
    if fs == [] then [] else FloatToWords(fs[0]) + FloatsToWords(fs[1..])
  }

  // ---------------------------------------------------------------------
  // default_filename
  // ---------------------------------------------------------------------

  function DigitChar(d: nat): char
    requires d < 10
  {
    "0123456789"[d]
  }

  /** Decimal digits of a natural number, as `str(n)` prints them. */
  function NatToString(n: nat): (s: string)
    ensures |s| >= 1 && forall c | c in s :: '0' <= c <= '9'
    decreases n
  {
    if n < 10 then [DigitChar(n)] else NatToString(n / 10) + [DigitChar(n % 10)]
  }

  /** `str(n)` for any integer. */
  function IntToString(n: int): string
  {
    if n < 0 then "-" + NatToString(-n) else NatToString(n)
  }

  function DigitsValue(s: string): int
  {
    if s == [] then 0 else 10 * DigitsValue(s[..|s| - 1]) + (s[|s| - 1] as int - '0' as int)
  }

  /** Reading back the decimal string gives the number again. */
  lemma {:induction false} NatToStringValue(n: nat)
    ensures DigitsValue(NatToString(n)) == n
    decreases n
  {
    var s := NatToString(n);
    if n >= 10 {
      NatToStringValue(n / 10);
      assert s[..|s| - 1] == NatToString(n / 10);
    }
  }

  /** `default_filename`: `<stamp>_<mode>_tia<gain>.csv`; the clock reading
      that makes the stamp is a parameter. */
  function DefaultFilename(stamp: string, mode: string, tiaGain: int): (name: string)
    ensures |name| == |stamp| + |mode| + |IntToString(tiaGain)| + 9
    ensures name[..|stamp|] == stamp
    ensures |name| >= 4 && name[|name| - 4..] == ".csv"
    ensures name[|stamp|..|stamp| + |mode| + 1] == "_" + mode
  {
    stamp + "_" + mode + "_tia" + IntToString(tiaGain) + ".csv"
  }

  /** The gain field of the name is the decimal spelling of the gain. */
  lemma DefaultFilenameGain(stamp: string, mode: string, tiaGain: nat)
    ensures var name := DefaultFilename(stamp, mode, tiaGain);
      var g := name[|stamp| + |mode| + 5..|name| - 4];
      name[|stamp| + |mode| + 1..|stamp| + |mode| + 5] == "_tia" && DigitsValue(g) == tiaGain
  {
    var name := DefaultFilename(stamp, mode, tiaGain);
    assert name[|stamp| + |mode| + 5..|name| - 4] == NatToString(tiaGain);
    NatToStringValue(tiaGain);
  }
}
