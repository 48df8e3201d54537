/**
  Base-32 text of binary data: encode_data_to_string of contrib/gnunet-chk.py and the library
  pair GNUNET_STRINGS_data_to_string / GNUNET_STRINGS_string_to_data of src/util/strings.c,
  which reads the URIs that the script prints.
 */
module Base32 {
  import opened Common

  // ----- Bits -----

  /** The low `k` bits of `x`, most significant first. */
  function Bits(x: nat, k: nat): (b: seq<bool>)
    ensures |b| == k
  {
    if k == 0 then [] else Bits(x / 2, k - 1) + [x % 2 == 1]
  }

  function Value(b: seq<bool>): (x: nat)
    ensures x < Pow2(|b|)
  {
    if b == [] then 0 else 2 * Value(b[..|b| - 1]) + (if b[|b| - 1] then 1 else 0)
  }

  function Zeros(k: nat): seq<bool> {
    seq(k, _ => false)
  }

  /** The bits of a sequence of `w`-bit numbers. */
  function AllBits(xs: seq<nat>, w: nat): (b: seq<bool>)
    ensures |b| == |xs| * w
  {
    if xs == [] then []
    else
      assert |xs| * w == (|xs| - 1) * w + w;
      AllBits(xs[..|xs| - 1], w) + Bits(xs[|xs| - 1], w)
  }

  /** Cuts a bit string into `w`-bit numbers. */
  function Chop(b: seq<bool>, w: nat): (xs: seq<nat>)
    requires w > 0
    ensures forall i | 0 <= i < |xs| :: xs[i] < Pow2(w)
  {
    if |b| < w then [] else [Value(b[..w])] + Chop(b[w..], w)
  }

  lemma {:induction false} ValueOfBits(x: nat, k: nat)
    requires x < Pow2(k)
    ensures Value(Bits(x, k)) == x
  {
    if k > 0 {
      ValueOfBits(x / 2, k - 1);
      assert Bits(x, k)[..k - 1] == Bits(x / 2, k - 1);
    }
  }

  lemma {:induction false} BitsOfValue(b: seq<bool>)
    ensures Bits(Value(b), |b|) == b
  {
    if b != [] {
      var k := |b| - 1;
      BitsOfValue(b[..k]);
      assert b == b[..k] + [b[k]];
    }
  }

  /** `x >> m` */
  function Shr(x: nat, m: nat): nat {
    if m == 0 then x else Shr(x / 2, m - 1)
  }

  lemma {:induction false} SplitBits(x: nat, k: nat, m: nat)
    ensures Bits(x, k + m) == Bits(Shr(x, m), k) + Bits(x, m)
  {
    if m > 0 {
      SplitBits(x / 2, k, m - 1);
      assert Bits(x, k + m) == Bits(x / 2, k + m - 1) + [x % 2 == 1];
    }
  }

  lemma DoubleProduct(x: int, p: int)
    ensures x * (2 * p) == 2 * (x * p)
  {
  }

  lemma MulAssoc(x: int, y: int, z: int)
    ensures x * (y * z) == (x * y) * z
  {
  }

  lemma {:induction false} ShrOfShl(x: nat, y: nat, m: nat)
    requires y < Pow2(m)
    ensures Shr(x * Pow2(m) + y, m) == x
  {
    if m > 0 {
      DoubleProduct(x, Pow2(m - 1));
      ShrOfShl(x, y / 2, m - 1);
    }
  }

  /** Only the low bits matter. */
  lemma {:induction false} LowBits(x: nat, y: nat, k: nat, c: int)
    requires x == y + c * Pow2(k)
    ensures Bits(x, k) == Bits(y, k)
  {
    if k > 0 {
      DoubleProduct(c, Pow2(k - 1));
      LowBits(x / 2, y / 2, k - 1, c);
    }
  }

  /** Shifting in `m` new bits. */
  lemma ShiftIn(x: nat, k: nat, y: nat, m: nat)
    requires y < Pow2(m)
    ensures Bits(x * Pow2(m) + y, k + m) == Bits(x, k) + Bits(y, m)
  {
    var z := x * Pow2(m) + y;
    SplitBits(z, k, m);
    ShrOfShl(x, y, m);
    LowBits(z, y, m, x);
  }

  lemma {:induction false} ChopOfAllBits(xs: seq<nat>, w: nat)
    requires w > 0 && forall i | 0 <= i < |xs| :: xs[i] < Pow2(w)
    ensures Chop(AllBits(xs, w), w) == xs
  {
    if xs != [] {
      AllBitsFront(xs, w);
      ChopOfAllBits(xs[1..], w);
      ValueOfBits(xs[0], w);
      assert AllBits(xs, w)[..w] == Bits(xs[0], w);
      assert AllBits(xs, w)[w..] == AllBits(xs[1..], w);
      assert |AllBits(xs, w)| >= w;
    }
  }

  lemma {:induction false} AllBitsFront(xs: seq<nat>, w: nat)
    requires xs != []
    ensures |AllBits(xs, w)| >= w
    ensures AllBits(xs, w) == Bits(xs[0], w) + AllBits(xs[1..], w)
  {
    var n := |xs| - 1;
    if n > 0 {
      AllBitsFront(xs[..n], w);
      assert xs[..n][1..] == xs[1..][..n - 1];
      assert xs[1..][n - 1] == xs[n];
    }
  }

  lemma {:induction false} AllBitsOfChop(b: seq<bool>, n: nat)
    requires |b| == 5 * n
    ensures |Chop(b, 5)| == n && AllBits(Chop(b, 5), 5) == b
  {
    if n > 0 {
      var rest := Chop(b[5..], 5);
      AllBitsOfChop(b[5..], n - 1);
      assert Chop(b, 5) == [Value(b[..5])] + rest;
      AllBitsFront(Chop(b, 5), 5);
      assert Chop(b, 5)[1..] == rest;
      BitsOfValue(b[..5]);
      assert b == b[..5] + b[5..];
    }
  }

  // ----- Encoding -----

  const EXTENDED_HEX: string := "0123456789ABCDEFGHIJKLMNOPQRSTUV"
  const CROCKFORD: string := "0123456789ABCDEFGHJKMNPQRSTVWXYZ"

  function Octets(data: seq<byte>): (xs: seq<nat>)
    ensures |xs| == |data|
  {
    seq(|data|, i requires 0 <= i < |data| => data[i] as nat)
  }

  /** Number of characters for `n` bytes. */
  function TextLength(n: nat): nat {
    (8 * n + 4) / 5
  }

  /** The bits of the data, filled up with zeros to a whole number of digits. */
  function Padded(data: seq<byte>): (b: seq<bool>)
    ensures |b| == 5 * TextLength(|data|)
  {
    AllBits(Octets(data), 8) + Zeros(5 * TextLength(|data|) - 8 * |data|)
  }

  /** The 5-bit digits of the data. */
  function Digits(data: seq<byte>): (ds: seq<nat>)
    ensures |ds| == TextLength(|data|)
    ensures forall i | 0 <= i < |ds| :: ds[i] < 32
    ensures AllBits(ds, 5) == Padded(data)
  {
    AllBitsOfChop(Padded(data), TextLength(|data|));
    Chop(Padded(data), 5)
  }

  /** The number that digits of a base write, the first being the most significant. */
  function Numeral(xs: seq<nat>, base: nat): nat {
    if xs == [] then 0 else Numeral(xs[..|xs| - 1], base) * base + xs[|xs| - 1]
  }

  lemma ValueSnoc(a: seq<bool>, x: bool)
    ensures Value(a + [x]) == 2 * Value(a) + (if x then 1 else 0)
  {
    assert (a + [x])[..|a|] == a;
  }

  lemma DoublePower(x: nat, k: nat)
    ensures 2 * (x * Pow2(k)) == x * Pow2(k + 1)
  {
    var p := Pow2(k);
    assert Pow2(k + 1) == 2 * p;
    assert x * (2 * p) == 2 * (x * p);
  }

  lemma {:induction false} ValueConcat(a: seq<bool>, b: seq<bool>)
    ensures Value(a + b) == Value(a) * Pow2(|b|) + Value(b)
  {
    if b == [] {
      assert a + b == a;
    } else {
      var front, last := b[..|b| - 1], b[|b| - 1];
      ValueConcat(a, front);
      assert a + b == (a + front) + [last] && b == front + [last];
      ValueSnoc(a + front, last);
      ValueSnoc(front, last);
      DoublePower(Value(a), |front|);
      assert Pow2(|b|) == Pow2(|front| + 1);
    }
  }

  lemma {:induction false} ValueOfZeros(k: nat)
    ensures Value(Zeros(k)) == 0
  {
    if k > 0 {
      assert Zeros(k)[..k - 1] == Zeros(k - 1);
      ValueOfZeros(k - 1);
    }
  }

  lemma {:induction false} ValueOfAllBits(xs: seq<nat>, w: nat)
    requires forall i | 0 <= i < |xs| :: xs[i] < Pow2(w)
    ensures Value(AllBits(xs, w)) == Numeral(xs, Pow2(w))
  {
    if xs != [] {
      var n := |xs| - 1;
      ValueOfAllBits(xs[..n], w);
      ValueConcat(AllBits(xs[..n], w), Bits(xs[n], w));
      ValueOfBits(xs[n], w);
    }
  }

  lemma Powers()
    ensures Pow2(5) == 32 && Pow2(8) == 256
  {
  }

  lemma NumberOfDigits(data: seq<byte>)
    ensures Value(Padded(data)) == Numeral(Digits(data), 32)
  {
    Powers();
    ValueOfAllBits(Digits(data), 5);
  }

  lemma NumberOfOctets(data: seq<byte>)
    ensures Value(AllBits(Octets(data), 8)) == Numeral(Octets(data), 256)
  {
    Powers();
    ValueOfAllBits(Octets(data), 8);
  }

  lemma PaddingShifts(b: seq<bool>, pad: nat)
    ensures Value(b + Zeros(pad)) == Value(b) * Pow2(pad)
  {
    ValueConcat(b, Zeros(pad));
    ValueOfZeros(pad);
  }

  /** The digits write, in base 32, the number that the bytes write in base 256, shifted left by the padding. */
  lemma DigitsAreNumber(data: seq<byte>)
    ensures Numeral(Digits(data), 32) == Numeral(Octets(data), 256) * Pow2(5 * TextLength(|data|) - 8 * |data|)
  {
    NumberOfDigits(data);
    NumberOfOctets(data);
    PaddingShifts(AllBits(Octets(data), 8), 5 * TextLength(|data|) - 8 * |data|);
  }

  function Spell(ds: seq<nat>, table: string): (text: string)
    requires |table| == 32 && forall i | 0 <= i < |ds| :: ds[i] < 32
    ensures |text| == |ds|
  {
    seq(|ds|, i requires 0 <= i < |ds| => table[ds[i]])
  }

  lemma {:induction false} ZeroBits(k: nat)
    ensures Bits(0, k) == Zeros(k)
  {
    if k > 0 {
      ZeroBits(k - 1);
      assert Zeros(k) == Zeros(k - 1) + [false];
    }
  }

  /** Zero-padding the last digit. */
  lemma PadDigit(bits: nat, v: nat, k: nat)
    ensures Bits(bits * Pow2(k), v + k) == Bits(bits, v) + Zeros(k)
  {
    ShiftIn(bits, v, 0, k);
    ZeroBits(k);
  }

  lemma Extend<T>(a: seq<T>, b: seq<T>, c: seq<T>)
    ensures a + (b + c) == (a + b) + c
  {
  }

  /** Moving the top five pending bits into the output. */
  lemma EmitDigit(ds: seq<nat>, bits: nat, v: nat)
    requires v >= 5
    ensures AllBits(ds + [Shr(bits, v - 5) % 32], 5) + Bits(bits, v - 5) == AllBits(ds, 5) + Bits(bits, v)
  {
    var x := Shr(bits, v - 5);
    SplitBits(bits, 5, v - 5);
    assert Pow2(5) == 32;
    LowBits(x, x % 32, 5, x / 32);
    assert (ds + [x % 32])[..|ds|] == ds;
    Extend(AllBits(ds, 5), Bits(x % 32, 5), Bits(bits, v - 5));
  }

  /** A machine word keeps the low 32 bits. */
  function Word(x: nat, machine: bool): nat {
    if machine then x % Pow2(32) else x
  }

  lemma WordBits(x: nat, v: nat, machine: bool)
    requires v <= 32
    ensures Bits(Word(x, machine), v) == Bits(x, v)
  {
    if machine {
      Pow2Product(v, 32 - v);
      CutBits(x, v, Pow2(32 - v), Pow2(32));
    }
  }

  lemma CutBits(x: nat, v: nat, p: nat, w: nat)
    requires p > 0 && w == p * Pow2(v)
    ensures Bits(x % w, v) == Bits(x, v)
  {
    var c := x / w;
    assert x == x % w + c * w;
    MulAssoc(c, p, Pow2(v));
    LowBits(x, x % w, v, c * p);
  }

  lemma {:induction false} Pow2Product(a: nat, b: nat)
    ensures Pow2(a + b) == Pow2(b) * Pow2(a)
  {
    if a > 0 {
      Pow2Product(a - 1, b);
      DoubleProduct(Pow2(b), Pow2(a - 1));
    }
  }

  /** The digits written and the `v` pending bits are a prefix of the text. */
  ghost predicate Pending(data: seq<byte>, out: seq<nat>, bits: nat, v: nat) {
    && 5 * |out| + v <= |Padded(data)|
    && AllBits(out, 5) + Bits(bits, v) == Padded(data)[..5 * |out| + v]
    && (forall i | 0 <= i < |out| :: out[i] < 32)
  }

  /** `(bits << 8) | x` */
  function Load(bits: nat, x: byte, machine: bool): nat {
    Word(bits * 256 + x as nat, machine)
  }

  /** `bits << k` */
  function Shl(bits: nat, k: nat, machine: bool): nat {
    Word(bits * Pow2(k), machine)
  }

  /** `(bits >> (v - 5)) & 31` */
  function TopDigit(bits: nat, v: nat): (d: nat)
    requires v >= 5
    ensures d < 32
  {
    Shr(bits, v - 5) % 32
  }

  lemma LoadBits(bits: nat, v: nat, x: byte, machine: bool)
    requires v < 5
    ensures Bits(Load(bits, x, machine), v + 8) == Bits(bits, v) + Bits(x as nat, 8)
  {
    assert Pow2(8) == 256;
    ShiftIn(bits, v, x as nat, 8);
    WordBits(bits * 256 + x as nat, v + 8, machine);
  }

  lemma LoadStep(data: seq<byte>, out: seq<nat>, bits: nat, v: nat, r: nat, machine: bool)
    requires Pending(data, out, bits, v) && v < 5 && r < |data| && 5 * |out| + v == 8 * r
    ensures Pending(data, out, Load(bits, data[r], machine), v + 8)
  {
    var x := Bits(data[r] as nat, 8);
    LoadBits(bits, v, data[r], machine);
    TextAt(data, r);
    Extend(AllBits(out, 5), Bits(bits, v), x);
  }

  lemma PadLength(n: nat, k: nat, v: nat)
    requires 5 * k + v == 8 * n && 0 < v < 5
    ensures v == 8 * n % 5 && TextLength(n) == k + 1
  {
    ByFive(8 * n, k, v);
    ByFive(8 * n + 4, k + 1, v - 1);
  }

  lemma ByFive(t: nat, q: nat, r: nat)
    requires t == 5 * q + r && r < 5
    ensures t / 5 == q && t % 5 == r
  {
  }

  lemma PadBits(bits: nat, v: nat, machine: bool)
    requires 0 < v < 5
    ensures Bits(Shl(bits, 5 - v, machine), 5) == Bits(bits, v) + Zeros(5 - v)
  {
    PadDigit(bits, v, 5 - v);
    WordBits(bits * Pow2(5 - v), 5, machine);
  }

  lemma PadStep(data: seq<byte>, out: seq<nat>, bits: nat, v: nat, machine: bool)
    requires Pending(data, out, bits, v) && 0 < v < 5 && 5 * |out| + v == 8 * |data|
    ensures Pending(data, out, Shl(bits, 5 - v, machine), 5)
    ensures v == 8 * |data| % 5 && 5 * |out| + 5 == |Padded(data)|
  {
    PadLength(|data|, |out|, v);
    PadBits(bits, v, machine);
    Extend(AllBits(out, 5), Bits(bits, v), Zeros(5 - v));
    var b, text := AllBits(Octets(data), 8), Padded(data);
    assert text == b + Zeros(5 - v);
    assert text[..|b|] == b;
    assert text[..|text|] == text;
  }

  lemma EmitStep(data: seq<byte>, out: seq<nat>, bits: nat, v: nat)
    requires Pending(data, out, bits, v) && v >= 5
    ensures Pending(data, out + [TopDigit(bits, v)], bits, v - 5)
  {
    EmitDigit(out, bits, v);
  }

  lemma AllWritten(data: seq<byte>, out: seq<nat>, bits: nat)
    requires Pending(data, out, bits, 0)
    requires 5 * |out| == 8 * |data| || 5 * |out| == |Padded(data)|
    ensures out == Digits(data)
  {
    assert 5 * |out| == |Padded(data)|;
    assert AllBits(out, 5) == Padded(data);
    ChopOfAllBits(out, 5);
  }

  /**
    The loop shared by the script's encoder, whose `bits` grows without bound, and the library's,
    whose `bits` is a 32-bit word.
   */
  method EncodeLoop(data: seq<byte>, machine: bool) returns (out: seq<nat>)
    ensures out == Digits(data)
  {
    var size := |data|;
    var vbit, rpos, bits: nat := 0, 0, 0;
    out := [];
    while rpos < size || vbit > 0
      invariant rpos <= size && vbit <= 7
      invariant 5 * |out| + vbit == 8 * rpos || (rpos == size && vbit == 0 && 5 * |out| == |Padded(data)|)
      invariant Pending(data, out, bits, vbit)
      decreases size - rpos, vbit
    {
      if rpos < size && vbit < 5 {
        LoadStep(data, out, bits, vbit, rpos, machine);
        bits := Load(bits, data[rpos], machine);
        rpos := rpos + 1;
        vbit := vbit + 8;
      }
      if vbit < 5 {
        PadStep(data, out, bits, vbit, machine);
        assert vbit == 8 * size % 5;
        bits := Shl(bits, 5 - vbit, machine);
        vbit := 5;
      }
      EmitStep(data, out, bits, vbit);
      out := out + [TopDigit(bits, vbit)];
      vbit := vbit - 5;
    }
    assert vbit == 0;
    AllWritten(data, out, bits);
  }

  /** Reading byte `r` extends the consumed prefix of the text by its eight bits. */
  lemma TextAt(data: seq<byte>, r: nat)
    requires r < |data|
    ensures Padded(data)[..8 * r + 8] == Padded(data)[..8 * r] + Bits(data[r] as nat, 8)
  {
    var b := AllBits(Octets(data), 8);
    assert b[..8 * r + 8] == b[..8 * r] + Bits(data[r] as nat, 8) by {
      PrefixBits(data, r);
      PrefixBits(data, r + 1);
      assert Octets(data[..r + 1])[..r] == Octets(data[..r]);
    }
    assert Padded(data)[..8 * r + 8] == b[..8 * r + 8];
    assert Padded(data)[..8 * r] == b[..8 * r];
  }

  lemma {:induction false} PrefixBits(data: seq<byte>, r: nat)
    requires r <= |data|
    ensures AllBits(Octets(data), 8)[..8 * r] == AllBits(Octets(data[..r]), 8)
  {
    var n := |data|;
    if r == n {
      assert data[..r] == data;
    } else {
      PrefixBits(data[..n - 1], r);
      assert data[..n - 1][..r] == data[..r];
      assert Octets(data)[..n - 1] == Octets(data[..n - 1]);
    }
  }

  /** encode_data_to_string; the script asserts that there is something to encode. */
  method EncodeDataToString(data: seq<byte>) returns (out: string)
    requires |data| > 0
    ensures out == Spell(Digits(data), EXTENDED_HEX)
    ensures |out| == |Digits(data)|
    ensures forall i | 0 <= i < |out| :: out[i] == "0123456789ABCDEFGHIJKLMNOPQRSTUV"[Digits(data)[i]]
  {
    var ds := EncodeLoop(data, false);
    out := Spell(ds, EXTENDED_HEX);
  }

  /** GNUNET_STRINGS_data_to_string; None when the buffer is too small. */
  method DataToString(data: seq<byte>, outSize: nat) returns (out: Option<string>)
    ensures out == if outSize < TextLength(|data|) then None else Some(Spell(Digits(data), CROCKFORD))
    ensures out.None? <==> outSize < (8 * |data| + 4) / 5
    ensures out.Some? ==>
              && |out.value| == |Digits(data)|
              && forall i | 0 <= i < |out.value| :: out.value[i] == "0123456789ABCDEFGHJKMNPQRSTVWXYZ"[Digits(data)[i]]
  {
    if outSize < (|data| * 8 + 4) / 5 {
      return None;
    }
    var ds := EncodeLoop(data, true);
    out := Some(Spell(ds, CROCKFORD));
  }

  // ----- Decoding -----

  /** getValue__; None stands for its -1. */
  function GetValue(c: char): (v: Option<nat>)
    ensures v.Some? ==> v.value < 32
  {
    var a := if c == 'O' || c == 'o' then '0'
             else if c == 'i' || c == 'I' || c == 'l' || c == 'L' then '1'
             else if c == 'u' || c == 'U' then 'V'
             else c;
    if '0' <= a <= '9' then Some((a - '0') as nat)
    else
      var b := if 'a' <= a <= 'z' then a - 'a' + 'A' else a;
      if 'A' <= b <= 'Z' then
        var dec := (if 'I' < b then 1 else 0) + (if 'L' < b then 1 else 0)
                   + (if 'O' < b then 1 else 0) + (if 'U' < b then 1 else 0);
        Some((b - 'A') as nat + 10 - dec)
      else None
  }

  /** What the decoder makes of each character. */
  type Symbols = xs: seq<Option<nat>> | forall i | 0 <= i < |xs| :: xs[i].Some? ==> xs[i].value < 32

  function SymbolsOf(enc: string): (xs: Symbols)
    ensures |xs| == |enc|
  {
    seq(|enc|, i requires 0 <= i < |enc| => GetValue(enc[i]))
  }

  function DigitOf(x: Option<nat>): (d: nat)
    ensures x.Some? && x.value < 32 ==> d < 32
  {
    match x case Some(v) => v case None => 0
  }

  function DigitsOf(xs: Symbols): (ds: seq<nat>)
    ensures |ds| == |xs|
    ensures forall i | 0 <= i < |ds| :: ds[i] < 32
  {
    seq(|xs|, i requires 0 <= i < |xs| => DigitOf(xs[i]))
  }

  predicate AllValid(xs: Symbols) {
    forall i | 0 <= i < |xs| :: xs[i].Some?
  }

  predicate ValidFrom(xs: Symbols, from: nat)
    requires from <= |xs|
    decreases |xs| - from
  {
    from == |xs| || (xs[from].Some? && ValidFrom(xs, from + 1))
  }

  lemma {:induction false} ValidSuffix(xs: Symbols, from: nat)
    requires from <= |xs| && ValidFrom(xs, from)
    ensures forall i | from <= i < |xs| :: xs[i].Some?
    decreases |xs| - from
  {
    if from < |xs| {
      ValidSuffix(xs, from + 1);
    }
  }

  /** The text has the right length for `n` bytes and its first 8n bits are those of `data`. */
  ghost predicate Decoded(xs: Symbols, n: nat, data: seq<byte>) {
    && |xs| == TextLength(n) && AllValid(xs) && |data| == n
    && AllBits(Octets(data), 8) == AllBits(DigitsOf(xs), 5)[..8 * n]
  }

  ghost predicate DecodesTo(enc: string, n: nat, data: seq<byte>) {
    Decoded(SymbolsOf(enc), n, data)
  }

  lemma {:induction false} OctetsInjective(a: seq<byte>, b: seq<byte>)
    requires AllBits(Octets(a), 8) == AllBits(Octets(b), 8)
    ensures a == b
  {
    assert Pow2(8) == 256;
    ChopOfAllBits(Octets(a), 8);
    ChopOfAllBits(Octets(b), 8);
    assert Octets(a) == Octets(b);
    forall i | 0 <= i < |a|
      ensures a[i] == b[i]
    {
      assert Octets(a)[i] == Octets(b)[i];
    }
  }

  lemma DecodingIsUnique(enc: string, n: nat, a: seq<byte>, b: seq<byte>)
    requires DecodesTo(enc, n, a) && DecodesTo(enc, n, b)
    ensures a == b
  {
    OctetsInjective(a, b);
  }

  /** The bits of the digit at position `i`. */
  lemma {:induction false} DigitAt(xs: seq<nat>, i: nat)
    requires i < |xs|
    ensures AllBits(xs, 5)[5 * i..5 * i + 5] == Bits(xs[i], 5)
  {
    var n := |xs| - 1;
    if i < n {
      DigitAt(xs[..n], i);
      var b := AllBits(xs[..n], 5);
      assert 5 * i + 5 <= |b|;
      assert AllBits(xs, 5)[5 * i..5 * i + 5] == b[5 * i..5 * i + 5];
    }
  }

  /** What is decoded so far: the pending bits, then the bits `low` of the bytes written from the end. */
  ghost predicate Decoding(all: seq<bool>, n: nat, rpos: nat, wpos: nat, bits: nat, v: nat, low: seq<bool>) {
    && wpos <= n && 8 * n <= |all| && 5 * rpos + v == 8 * wpos && |low| == 8 * (n - wpos)
    && bits < Pow2(v)
    && Bits(bits, v) + low == all[5 * rpos..8 * n]
  }

  lemma FirstDigit(all: seq<bool>, n: nat, last: nat, d: nat, v: nat)
    requires v <= 5 && 5 * last + v == 8 * n && 5 * last + 5 <= |all|
    requires d < 32 && all[5 * last..5 * last + 5] == Bits(d, 5)
    ensures Decoding(all, n, last, n, Shr(d, 5 - v), v, [])
  {
    assert Shr(d, 5 - v) < Pow2(v) by {
      assert Pow2(5) == 32;
      ShrBound(d, v, 5 - v);
    }
    SplitBits(d, v, 5 - v);
    assert all[5 * last..5 * last + 5][..v] == all[5 * last..8 * n];
    assert Bits(d, 5)[..v] == Bits(Shr(d, 5 - v), v);
  }

  lemma {:induction false} ShrBound(x: nat, k: nat, m: nat)
    requires x < Pow2(k + m)
    ensures Shr(x, m) < Pow2(k)
  {
    if m > 0 {
      ShrBound(x / 2, k, m - 1);
    }
  }

  /** `(d << v) | bits` */
  function LoadHigh(d: nat, bits: nat, v: nat): nat {
    d * Pow2(v) + bits
  }

  lemma HighBits(d: nat, bits: nat, v: nat)
    requires d < 32 && bits < Pow2(v)
    ensures LoadHigh(d, bits, v) < Pow2(v + 5)
    ensures Bits(LoadHigh(d, bits, v), v + 5) == Bits(d, 5) + Bits(bits, v)
  {
    ShiftIn(d, 5, bits, v);
    ScaledBound(d, bits, v);
  }

  lemma ScaledBound(d: nat, bits: nat, v: nat)
    requires d < 32 && bits < Pow2(v)
    ensures LoadHigh(d, bits, v) < Pow2(v + 5)
  {
    Pow2Product(v, 5);
    assert Pow2(5) == 32;
    assert d * Pow2(v) <= 31 * Pow2(v);
  }

  lemma Prepend<T>(s: seq<T>, a: nat, b: nat, c: nat, x: seq<T>, y: seq<T>, z: seq<T>)
    requires a <= b <= c <= |s|
    requires s[a..b] == x && s[b..c] == y + z
    ensures s[a..c] == (x + y) + z
  {
    assert s[a..c] == s[a..b] + s[b..c];
  }

  lemma NextDigit(all: seq<bool>, n: nat, rpos: nat, wpos: nat, bits: nat, v: nat, low: seq<bool>, d: nat)
    requires Decoding(all, n, rpos, wpos, bits, v, low) && rpos > 0
    requires d < 32 && all[5 * rpos - 5..5 * rpos] == Bits(d, 5)
    ensures Decoding(all, n, rpos - 1, wpos, LoadHigh(d, bits, v), v + 5, low)
  {
    Prepend(all, 5 * rpos - 5, 5 * rpos, 8 * n, Bits(d, 5), Bits(bits, v), low);
    HighBits(d, bits, v);
  }

  lemma LowOctet(bits: nat, v: nat)
    requires v >= 8 && bits < Pow2(v)
    ensures Bits(bits, v) == Bits(Shr(bits, 8), v - 8) + Bits(bits % 256, 8)
    ensures Shr(bits, 8) < Pow2(v - 8)
  {
    SplitBits(bits, v - 8, 8);
    assert Pow2(8) == 256;
    LowBits(bits, bits % 256, 8, bits / 256);
    ShrBound(bits, v - 8, 8);
  }

  lemma NextOctet(all: seq<bool>, n: nat, rpos: nat, wpos: nat, bits: nat, v: nat, low: seq<bool>)
    requires Decoding(all, n, rpos, wpos, bits, v, low) && v >= 8 && wpos > 0
    ensures Decoding(all, n, rpos, wpos - 1, Shr(bits, 8), v - 8, Bits(bits % 256, 8) + low)
  {
    LowOctet(bits, v);
    Extend(Bits(Shr(bits, 8), v - 8), Bits(bits % 256, 8), low);
  }

  lemma OctetInFront(x: byte, tail: seq<byte>)
    ensures AllBits(Octets([x] + tail), 8) == Bits(x as nat, 8) + AllBits(Octets(tail), 8)
  {
    AllBitsFront(Octets([x] + tail), 8);
    assert Octets([x] + tail)[1..] == Octets(tail);
  }

  /** One turn of the decoding loop: five more bits, and a byte if there are eight. */
  lemma DecodeTurn(all: seq<bool>, n: nat, rpos: nat, wpos: nat, bits: nat, v: nat, tail: seq<byte>, d: nat)
    requires Decoding(all, n, rpos, wpos, bits, v, AllBits(Octets(tail), 8)) && 0 < wpos && v < 8 && rpos > 0
    requires d < 32 && all[5 * rpos - 5..5 * rpos] == Bits(d, 5)
    ensures var b := LoadHigh(d, bits, v);
            if v < 3 then Decoding(all, n, rpos - 1, wpos, b, v + 5, AllBits(Octets(tail), 8))
            else Decoding(all, n, rpos - 1, wpos - 1, Shr(b, 8), v - 3, AllBits(Octets([(b % 256) as byte] + tail), 8))
  {
    var b := LoadHigh(d, bits, v);
    NextDigit(all, n, rpos, wpos, bits, v, AllBits(Octets(tail), 8), d);
    if v >= 3 {
      NextOctet(all, n, rpos - 1, wpos, b, v + 5, AllBits(Octets(tail), 8));
      OctetInFront((b % 256) as byte, tail);
    }
  }

  /** The length test, in terms of the bits left for the last digit. */
  lemma LastDigitBits(n: nat, len: nat, v: nat)
    requires len > 0 && v == if 8 * n % 5 > 0 then 8 * n % 5 else 5
    ensures (8 * n + (5 - v)) / 5 == len <==> len == TextLength(n)
    ensures len == TextLength(n) ==> n > 0 && v == 8 * n - 5 * (len - 1)
  {
    var q, r := 8 * n / 5, 8 * n % 5;
    assert 8 * n == 5 * q + r;
    if r == 0 {
      ByFive(8 * n + 4, q, 4);
    } else {
      ByFive(8 * n + 4, q + 1, r - 1);
      ByFive(8 * n + 5 - v, q + 1, 0);
    }
  }

  /** The body of the decoding loop, for the digit `d` at position `rpos`. */
  method DecodeDigit(ghost all: seq<bool>, d: nat, out: array<byte>, ghost rpos: nat, wpos: nat, bits: nat, vbit: nat)
    returns (wpos': nat, bits': nat, vbit': nat)
    requires 0 < wpos <= out.Length && vbit < 8
    requires Decoding(all, out.Length, rpos + 1, wpos, bits, vbit, AllBits(Octets(out[wpos..]), 8))
    requires d < 32 && all[5 * rpos..5 * rpos + 5] == Bits(d, 5)
    modifies out
    ensures wpos' <= out.Length && vbit' < 8
    ensures Decoding(all, out.Length, rpos, wpos', bits', vbit', AllBits(Octets(out[wpos'..]), 8))
  {
    ghost var tail := out[wpos..];
    DecodeTurn(all, out.Length, rpos + 1, wpos, bits, vbit, tail, d);
    bits' := LoadHigh(d, bits, vbit);
    vbit' := vbit + 5;
    wpos' := wpos;
    if vbit' >= 8 {
      wpos' := wpos - 1;
      PutOctet(out, wpos', (bits' % 256) as byte);
      bits' := Shr(bits', 8);
      vbit' := vbit' - 8;
    }
  }

  /** The loop of GNUNET_STRINGS_string_to_data, which fills the output buffer from its end. */
  method DecodeLoop(xs: Symbols, outSize: nat, first: nat, firstBits: nat) returns (r: Option<seq<byte>>)
    requires |xs| == TextLength(outSize) > 0 && xs[|xs| - 1].Some?
    requires firstBits <= 5 && Decoding(AllBits(DigitsOf(xs), 5), outSize, |xs| - 1, outSize, first, firstBits, [])
    ensures r.Some? <==> AllValid(xs)
    ensures r.Some? ==> Decoded(xs, outSize, r.value)
  {
    var out := new byte[outSize];
    var wpos: nat, rpos: nat := outSize, |xs| - 1;
    var bits: nat, vbit: nat := first, firstBits;
    ghost var all := AllBits(DigitsOf(xs), 5);
    assert out[outSize..] == [];
    while wpos > 0
      invariant wpos <= outSize && vbit < 8 && rpos < |xs|
      invariant Decoding(all, outSize, rpos, wpos, bits, vbit, AllBits(Octets(out[wpos..]), 8))
      invariant ValidFrom(xs, rpos)
      decreases rpos
    {
      assert rpos > 0;
      rpos := rpos - 1;
      if xs[rpos].None? {
        return None;
      }
      DigitAt(DigitsOf(xs), rpos);
      wpos, bits, vbit := DecodeDigit(all, xs[rpos].value, out, rpos, wpos, bits, vbit);
    }
    assert rpos == 0 && vbit == 0;
    ValidSuffix(xs, 0);
    assert all[0..8 * outSize] == all[..8 * outSize];
    assert out[0..] == out[..];
    r := Some(out[..]);
  }

  method PutOctet(out: array<byte>, wpos: nat, x: byte)
    requires wpos < out.Length
    modifies out
    ensures out[wpos..] == [x] + old(out[wpos + 1..])
  {
    out[wpos] := x;
  }

  /** GNUNET_STRINGS_string_to_data */
  method StringToData(enc: string, outSize: nat) returns (r: Option<seq<byte>>)
    ensures r.Some? <==> |enc| == TextLength(outSize) && AllValid(SymbolsOf(enc))
    ensures r.Some? ==> DecodesTo(enc, outSize, r.value)
  {
    if |enc| == 0 {
      if outSize == 0 {
        return Some([]);
      }
      return None;
    }
    var encodedLen := 8 * outSize;
    var vbit: nat := if encodedLen % 5 > 0 then encodedLen % 5 else 5;
    var shift := 5 - vbit;
    var xs := SymbolsOf(enc);
    var last := xs[|xs| - 1];
    LastDigitBits(outSize, |enc|, vbit);
    if (encodedLen + shift) / 5 != |enc| {
      return None;
    }
    if last.None? {
      return None;
    }
    DigitAt(DigitsOf(xs), |xs| - 1);
    FirstDigit(AllBits(DigitsOf(xs), 5), outSize, |xs| - 1, last.value, vbit);
    r := DecodeLoop(xs, outSize, Shr(last.value, shift), vbit);
  }

  // ----- Round trips -----

  lemma CrockfordDigit(d: nat)
    requires d < 32
    ensures GetValue(CROCKFORD[d]) == Some(d)
  {
    if d < 18 {
      LowCharacter(d);
    } else {
      HighCrockford(d);
    }
  }

  /** The decoder reads digits and letters of either case, O as 0, I and L as 1, and U as V. */
  lemma DecoderReads(c: char, d: nat)
    requires d < 32
    ensures GetValue("0123456789ABCDEFGHJKMNPQRSTVWXYZ"[d]) == Some(d)
    ensures GetValue(c).Some? <==> '0' <= c <= '9' || 'A' <= c <= 'Z' || 'a' <= c <= 'z'
    ensures 'a' <= c <= 'z' ==> GetValue(c) == GetValue(c - 'a' + 'A')
    ensures GetValue('O') == Some(0) && GetValue('I') == GetValue('L') == Some(1)
    ensures GetValue('U') == GetValue('V') == Some(27)
  {
    CrockfordDigit(d);
  }

  /** Both alphabets start with the same eighteen characters. */
  lemma LowCharacter(d: nat)
    requires d < 18
    ensures CROCKFORD[d] == EXTENDED_HEX[d]
    ensures GetValue(EXTENDED_HEX[d]) == Some(d)
  {
  }

  lemma HighCrockford(d: nat)
    requires 18 <= d < 32
    ensures GetValue(CROCKFORD[d]) == Some(d)
  {
  }

  /** From there on the library reads the script's characters as smaller digits. */
  lemma HighExtendedHex(d: nat)
    requires 18 <= d < 32
    ensures GetValue(EXTENDED_HEX[d]).Some? && GetValue(EXTENDED_HEX[d]).value < d
  {
  }

  lemma {:induction false} ShrStrict(v: nat, d: nat, k: nat)
    requires v < d && Bits(d, k) == Zeros(k)
    ensures Shr(v, k) < Shr(d, k)
  {
    if k > 0 {
      assert Bits(d, k)[..k - 1] == Bits(d / 2, k - 1);
      assert Zeros(k)[..k - 1] == Zeros(k - 1);
      assert !Bits(d, k)[k - 1];
      ShrStrict(v / 2, d / 2, k - 1);
    }
  }

  lemma SameDigitsDecode(data: seq<byte>, enc: string)
    requires AllValid(SymbolsOf(enc)) && DigitsOf(SymbolsOf(enc)) == Digits(data)
    ensures DecodesTo(enc, |data|, data)
  {
  }

  /** What the library encodes it also decodes: with DecodingIsUnique, to the same bytes. */
  lemma LibraryRoundTrip(data: seq<byte>)
    ensures DecodesTo(Spell(Digits(data), CROCKFORD), |data|, data)
  {
    var enc := Spell(Digits(data), CROCKFORD);
    forall i | 0 <= i < |enc|
      ensures GetValue(enc[i]) == Some(Digits(data)[i])
    {
      CrockfordDigit(Digits(data)[i]);
    }
    SameDigitsDecode(data, enc);
  }

  /** The digit of a character in the extended-hex alphabet of section 7 of RFC 4648. */
  function HexValue(c: char): (v: Option<nat>)
    ensures v.Some? ==> v.value < 32 && EXTENDED_HEX[v.value] == c
  {
    if '0' <= c <= '9' then Some(c as nat - '0' as nat)
    else if 'A' <= c <= 'V' then Some(c as nat - 'A' as nat + 10)
    else None
  }

  lemma LowHexValue(d: nat)
    requires d < 16
    ensures HexValue(EXTENDED_HEX[d]) == Some(d)
  {
  }

  lemma HighHexValue(d: nat)
    requires 16 <= d < 32
    ensures HexValue(EXTENDED_HEX[d]) == Some(d)
  {
  }

  lemma HexValueOfDigit(d: nat)
    requires d < 32
    ensures HexValue(EXTENDED_HEX[d]) == Some(d)
  {
    if d < 16 {
      LowHexValue(d);
    } else {
      HighHexValue(d);
    }
  }

  function HexDigits(text: string): (ds: seq<nat>)
    ensures |ds| == |text|
  {
    seq(|text|, i requires 0 <= i < |text| => DigitOf(HexValue(text[i])))
  }

  /** The `n` bytes that a text of extended-hex characters starts with. */
  function HexDecode(text: string, n: nat): (data: seq<byte>)
    requires 8 * n <= 5 * |text|
  {
    var xs := Chop(AllBits(HexDigits(text), 5)[..8 * n], 8);
    assert Pow2(8) == 256;
    seq(|xs|, i requires 0 <= i < |xs| => xs[i] as byte)
  }

  /** A decoder for the script's alphabet recovers every byte string from the script's text. */
  lemma ScriptRoundTrip(data: seq<byte>)
    ensures |Spell(Digits(data), EXTENDED_HEX)| == TextLength(|data|)
    ensures HexDecode(Spell(Digits(data), EXTENDED_HEX), |data|) == data
  {
    var text := Spell(Digits(data), EXTENDED_HEX);
    forall i | 0 <= i < |text| ensures HexDigits(text)[i] == Digits(data)[i] {
      HexValueOfDigit(Digits(data)[i]);
    }
    assert HexDigits(text) == Digits(data);
    assert Padded(data)[..8 * |data|] == AllBits(Octets(data), 8);
    assert Pow2(8) == 256;
    ChopOfAllBits(Octets(data), 8);
  }

  /** Below the bits of the data, every digit is zero: only the last one has such a part. */
  function PaddingOf(data: seq<byte>, i: nat): (k: nat)
    requires i < TextLength(|data|)
    ensures k < 5 && 5 * i + (5 - k) <= 8 * |data|
  {
    if 5 * i + 5 <= 8 * |data| then 0 else 5 * i + 5 - 8 * |data|
  }

  lemma DigitPadding(data: seq<byte>, i: nat)
    requires i < TextLength(|data|)
    ensures Bits(Digits(data)[i], PaddingOf(data, i)) == Zeros(PaddingOf(data, i))
  {
    var k, d := PaddingOf(data, i), Digits(data)[i];
    if k > 0 {
      DigitAt(Digits(data), i);
      SplitBits(d, 5 - k, k);
      assert Bits(d, 5)[5 - k..] == Bits(d, k);
      assert Padded(data)[5 * i..5 * i + 5][5 - k..] == Zeros(k);
    }
  }

  /**
    The script promises the library's encoding, but writes another alphabet: the library gets
    the bytes back from the script's text exactly when no 5-bit digit of the data reaches 18.
   */
  lemma ScriptTextDecodes(data: seq<byte>)
    requires |data| > 0
    ensures DecodesTo(Spell(Digits(data), EXTENDED_HEX), |data|, data)
            <==> forall i | 0 <= i < |Digits(data)| :: Digits(data)[i] < 18
  {
    var ds, enc := Digits(data), Spell(Digits(data), EXTENDED_HEX);
    if forall i | 0 <= i < |ds| :: ds[i] < 18 {
      forall i | 0 <= i < |enc|
        ensures GetValue(enc[i]) == Some(ds[i])
      {
        LowCharacter(ds[i]);
      }
      SameDigitsDecode(data, enc);
    } else {
      var i :| 0 <= i < |ds| && ds[i] >= 18;
      HighExtendedHex(ds[i]);
      MisreadDigit(data, SymbolsOf(enc), i);
    }
  }

  function Ones(k: nat): seq<bool> {
    seq(k, _ => true)
  }

  lemma {:induction false} OnesBits(x: nat, k: nat)
    requires x + 1 == Pow2(k)
    ensures Bits(x, k) == Ones(k)
  {
    if k > 0 {
      assert x == 2 * (Pow2(k - 1) - 1) + 1;
      OnesBits(x / 2, k - 1);
      assert Ones(k) == Ones(k - 1) + [true];
    }
  }

  lemma PaddedOnes(data: seq<byte>)
    requires data == [255]
    ensures Padded(data)[0..5] == Ones(5)
  {
    assert Pow2(8) == 256;
    OnesBits(255, 8);
    var xs := Octets(data);
    assert xs == [255] && xs[..0] == [];
    assert AllBits(xs, 8) == AllBits([], 8) + Ones(8);
    assert AllBits(xs, 8)[0..5] == Ones(5);
  }

  /** Five ones are the digit 31. */
  lemma DigitOfOnes(d: nat)
    requires d < 32 && Bits(d, 5) == Ones(5)
    ensures d == 31
  {
    assert Pow2(5) == 32;
    OnesBits(31, 5);
    ValueOfBits(d, 5);
    ValueOfBits(31, 5);
  }

  lemma FirstDigitOfOnes(data: seq<byte>)
    requires data == [255]
    ensures Digits(data)[0] == 31
  {
    PaddedOnes(data);
    DigitAt(Digits(data), 0);
    DigitOfOnes(Digits(data)[0]);
  }

  /** The first digit of a byte 255 is 31, so the library does not read the script's text for it back. */
  lemma ScriptTextMisread(data: seq<byte>)
    requires data == [255]
    ensures !DecodesTo(Spell(Digits(data), EXTENDED_HEX), |data|, data)
  {
    FirstDigitOfOnes(data);
    ScriptTextDecodes(data);
  }

  lemma MisreadDigit(data: seq<byte>, xs: Symbols, i: nat)
    requires |xs| == TextLength(|data|) && i < |xs|
    requires DigitsOf(xs)[i] < Digits(data)[i]
    ensures !Decoded(xs, |data|, data)
  {
    DigitPadding(data, i);
    ShrStrict(DigitsOf(xs)[i], Digits(data)[i], PaddingOf(data, i));
    if Decoded(xs, |data|, data) {
      assert AllBits(Digits(data), 5)[..8 * |data|] == AllBits(Octets(data), 8);
      SameLeadingDigits(DigitsOf(xs), Digits(data), 8 * |data|, i, PaddingOf(data, i));
    }
  }

  lemma SameLeadingDigits(xs: seq<nat>, ys: seq<nat>, to: nat, i: nat, k: nat)
    requires |xs| == |ys| && i < |xs| && k <= 5 && 5 * i + 5 - k <= to <= 5 * |xs|
    requires xs[i] < 32 && ys[i] < 32
    requires AllBits(xs, 5)[..to] == AllBits(ys, 5)[..to]
    ensures Shr(xs[i], k) == Shr(ys[i], k)
  {
    DigitAt(xs, i);
    DigitAt(ys, i);
    TopBitsAgree(AllBits(xs, 5), AllBits(ys, 5), 5 * i, k, to);
    SameTopBits(xs[i], ys[i], k);
  }

  lemma TopBitsAgree(a: seq<bool>, b: seq<bool>, from: nat, k: nat, to: nat)
    requires |a| == |b| && from + 5 - k <= to <= |a| && k <= 5 && from + 5 <= |a|
    requires a[..to] == b[..to]
    ensures a[from..from + 5][..5 - k] == b[from..from + 5][..5 - k]
  {
    assert a[from..from + 5][..5 - k] == a[..to][from..from + 5 - k];
    assert b[from..from + 5][..5 - k] == b[..to][from..from + 5 - k];
  }

  lemma TopBits(x: nat, k: nat)
    requires x < 32 && k <= 5
    ensures Value(Bits(x, 5)[..5 - k]) == Shr(x, k)
  {
    SplitBits(x, 5 - k, k);
    assert Bits(x, 5)[..5 - k] == Bits(Shr(x, k), 5 - k);
    assert Pow2(5) == 32;
    ShrBound(x, 5 - k, k);
    ValueOfBits(Shr(x, k), 5 - k);
  }

  lemma SameTopBits(x: nat, y: nat, k: nat)
    requires x < 32 && y < 32 && k <= 5
    requires Bits(x, 5)[..5 - k] == Bits(y, 5)[..5 - k]
    ensures Shr(x, k) == Shr(y, k)
  {
    TopBits(x, k);
    TopBits(y, k);
  }
}
