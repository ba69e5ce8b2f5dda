/** The build fingerprint (crates/vayren-shell/build.rs): 64-bit FNV-1a over paths and
    contents, and the guarantee that a change of one byte is always detected. */
module Fingerprint {
  import opened Wrappers

  const MODULUS: int := 0x1_0000_0000_0000_0000
  const PRIME: int := 0x100000001B3
  const OFFSET: int := 0xCBF29CE484222325

  type Word = n: int | 0 <= n < MODULUS witness 0
  type Byte = n: int | 0 <= n < 256 witness 0

  // ---- Exclusive or ----

  function XorBit(x: nat, y: nat): nat {
    if x % 2 == y % 2 then 0 else 1
  }

  /** Bitwise exclusive or. */
  function Xor(x: nat, y: nat): nat
    decreases x + y
  {
    if x == 0 && y == 0 then 0 else XorBit(x, y) + 2 * Xor(x / 2, y / 2)
  }

  lemma LowBit(z: nat, b: nat, h: nat)
    requires b < 2 && z == b + 2 * h
    ensures z % 2 == b && z / 2 == h
  {
  }

  lemma {:induction false} XorTwice(x: nat, y: nat)
    ensures Xor(Xor(x, y), y) == x
    decreases x + y
  {
    if x != 0 || y != 0 {
      XorTwice(x / 2, y / 2);
      XorBitTwice(x, y);
      XorUnfolds(Xor(x, y), y);
    }
  }

  lemma XorUnfolds(x: nat, y: nat)
    ensures Xor(x, y) == XorBit(x, y) + 2 * Xor(x / 2, y / 2)
  {
    assert Xor(0, 0) == 0;
  }

  lemma XorBitTwice(x: nat, y: nat)
    ensures XorBit(Xor(x, y), y) == x % 2 && Xor(x, y) / 2 == Xor(x / 2, y / 2)
  {
    XorUnfolds(x, y);
    LowBit(Xor(x, y), XorBit(x, y), Xor(x / 2, y / 2));
    LowBitTwice(Xor(x, y), x, y);
  }

  lemma LowBitTwice(z: nat, x: nat, y: nat)
    requires z % 2 == XorBit(x, y)
    ensures XorBit(z, y) == x % 2
  {
  }

  lemma {:induction false} XorCommutes(x: nat, y: nat)
    ensures Xor(x, y) == Xor(y, x)
    decreases x + y
  {
    if x != 0 || y != 0 {
      XorCommutes(x / 2, y / 2);
    }
  }

  function Power(n: nat): nat {
    if n == 0 then 1 else 2 * Power(n - 1)
  }

  lemma {:induction false} XorFits(x: nat, y: nat, n: nat)
    requires x < Power(n) && y < Power(n)
    ensures Xor(x, y) < Power(n)
    decreases n
  {
    if n > 0 && (x != 0 || y != 0) {
      XorFits(x / 2, y / 2, n - 1);
    }
  }

  lemma WordBound()
    ensures MODULUS == Power(64)
  {
    assert Power(4) == 16;
    PowerAdds(4, 4);
    PowerAdds(8, 8);
    PowerAdds(16, 16);
    PowerAdds(32, 32);
  }

  lemma {:induction false} PowerAdds(m: nat, n: nat)
    ensures Power(m + n) == Power(m) * Power(n)
  {
    if n > 0 {
      PowerAdds(m, n - 1);
    }
  }

  // ---- One round ----

  /** The prime is odd, hence invertible: this is its inverse. */
  const INVERSE: int := 0xCE965057AFF6957B

  lemma PrimeIsInvertible()
    ensures PRIME * INVERSE == 1 + 887285111055 * MODULUS
  {
  }

  /** Wrapping multiplication. */
  function TimesPrime(h: Word): Word {
    h * PRIME % MODULUS
  }

  /** Multiplying the product by the inverse gives the factor back, up to the modulus. */
  lemma FactorReturns(h: Word)
    ensures exists k: int :: TimesPrime(h) * INVERSE == h + k * MODULUS
  {
    PrimeIsInvertible();
    var q := h * PRIME / MODULUS;
    var k := h * 887285111055 - q * INVERSE;
    calc {
      TimesPrime(h) * INVERSE;
      (h * PRIME - q * MODULUS) * INVERSE;
      h * (PRIME * INVERSE) - q * MODULUS * INVERSE;
      h * (1 + 887285111055 * MODULUS) - q * MODULUS * INVERSE;
      h + k * MODULUS;
    }
  }

  lemma TimesPrimeInjective(a: Word, b: Word)
    requires TimesPrime(a) == TimesPrime(b)
    ensures a == b
  {
    FactorReturns(a);
    FactorReturns(b);
    var k: int :| TimesPrime(a) * INVERSE == a + k * MODULUS;
    var l: int :| TimesPrime(b) * INVERSE == b + l * MODULUS;
    SmallMultiple(a - b, l - k);
  }

  lemma SmallMultiple(d: int, m: int)
    requires d == m * MODULUS && -MODULUS < d < MODULUS
    ensures d == 0
  {
  }

  function Mix(h: Word, b: Byte): Word {
    XorFitsWord(h, b);
    Xor(h, b)
  }

  lemma XorFitsWord(h: Word, b: Byte)
    ensures Xor(h, b) < MODULUS
  {
    WordBound();
    XorFits(h, b, 64);
  }

  function Round(h: Word, b: Byte): Word {
    TimesPrime(Mix(h, b))
  }

  lemma RoundInjectiveInState(g: Word, h: Word, b: Byte)
    requires Round(g, b) == Round(h, b)
    ensures g == h
  {
    TimesPrimeInjective(Mix(g, b), Mix(h, b));
    XorTwice(g, b);
    XorTwice(h, b);
  }

  lemma RoundInjectiveInByte(h: Word, a: Byte, b: Byte)
    requires Round(h, a) == Round(h, b)
    ensures a == b
  {
    TimesPrimeInjective(Mix(h, a), Mix(h, b));
    XorCommutes(h, a);
    XorCommutes(h, b);
    XorTwice(a, h);
    XorTwice(b, h);
  }

  // ---- The hash ----

  function Fnv(bytes: seq<Byte>, h: Word): Word {
    if bytes == [] then h else Round(Fnv(bytes[..|bytes| - 1], h), bytes[|bytes| - 1])
  }

  /** `fnv1a` */
  method Fnv1a(bytes: seq<Byte>, start: Word) returns (h: Word)
    ensures h == Fnv(bytes, start)
  {
    h := start;
    for i := 0 to |bytes|
      invariant h == Fnv(bytes[..i], start)
    {
      assert bytes[..i + 1][..i] == bytes[..i];
      h := Mix(h, bytes[i]);
      h := TimesPrime(h);
    }
    assert bytes[..|bytes|] == bytes;
  }

  lemma {:induction false} FnvAppends(a: seq<Byte>, b: seq<Byte>, h: Word)
    ensures Fnv(a + b, h) == Fnv(b, Fnv(a, h))
  {
    if b == [] {
      assert a + b == a;
    } else {
      FnvAppends(a, b[..|b| - 1], h);
      assert (a + b)[..|a + b| - 1] == a + b[..|b| - 1];
    }
  }

  /** Over a fixed suffix the hash is injective in its start state. */
  lemma {:induction false} FnvInjectiveInState(bytes: seq<Byte>, g: Word, h: Word)
    requires Fnv(bytes, g) == Fnv(bytes, h)
    ensures g == h
  {
    if bytes != [] {
      var init := bytes[..|bytes| - 1];
      RoundInjectiveInState(Fnv(init, g), Fnv(init, h), bytes[|bytes| - 1]);
      FnvInjectiveInState(init, g, h);
    }
  }

  /** Two streams that differ in exactly one byte hash differently. */
  lemma OneByteChangesFnv(before: seq<Byte>, a: Byte, b: Byte, after: seq<Byte>, h: Word)
    requires a != b
    ensures Fnv(before + [a] + after, h) != Fnv(before + [b] + after, h)
  {
    var start := Fnv(before, h);
    FnvAppends(before + [a], after, h);
    FnvAppends(before + [b], after, h);
    FnvAppends(before, [a], h);
    FnvAppends(before, [b], h);
    assert Fnv([a], start) == Round(start, a) && Fnv([b], start) == Round(start, b);
    if Fnv(after, Round(start, a)) == Fnv(after, Round(start, b)) {
      FnvInjectiveInState(after, Round(start, a), Round(start, b));
      RoundInjectiveInByte(start, a, b);
    }
  }

  // ---- The fingerprint of a list of inputs ----

  /** An input file: its path, its bytes, and whether the build script can read them. */
  datatype Input = Input(path: seq<Byte>, contents: seq<Byte>, readable: bool)

  predicate Readable(inputs: seq<Input>) {
    forall i | 0 <= i < |inputs| :: inputs[i].readable
  }

  /** The bytes that are hashed: every path and every file, each closed by a zero. */
  function Stream(inputs: seq<Input>): seq<Byte> {
    if inputs == [] then []
    else
      var last := inputs[|inputs| - 1];
      Stream(inputs[..|inputs| - 1]) + (last.path + [0] + last.contents + [0])
  }

  /** The fingerprint of the bytes, readable or not. */
  function Print(inputs: seq<Input>): Word {
    Fnv(Stream(inputs), OFFSET)
  }

  function Hash(inputs: seq<Input>): Option<Word> {
    if Readable(inputs) then Some(Print(inputs)) else None
  }

  /** One readable input joins the hash. */
  method AddInput(ghost done: seq<Byte>, input: Input, start: Word) returns (h: Word)
    requires start == Fnv(done, OFFSET)
    ensures h == Fnv(done + (input.path + [0] + input.contents + [0]), OFFSET)
  {
    h := Fnv1a(input.path, start);
    h := Fnv1a([0], h);
    h := Fnv1a(input.contents, h);
    h := Fnv1a([0], h);
    FourParts(done, input.path, input.contents);
  }

  /** `content_hash`: None as soon as an input cannot be read. */
  method ContentHash(inputs: seq<Input>) returns (hash: Option<Word>)
    ensures hash == Hash(inputs)
  {
    var h := OFFSET;
    for i := 0 to |inputs|
      invariant Readable(inputs[..i])
      invariant h == Print(inputs[..i])
    {
      assert inputs[..i + 1][..i] == inputs[..i];
      if !inputs[i].readable {
        return None;
      }
      h := AddInput(Stream(inputs[..i]), inputs[i], h);
    }
    assert inputs[..|inputs|] == inputs;
    hash := Some(h);
  }

  lemma FourParts(done: seq<Byte>, path: seq<Byte>, contents: seq<Byte>)
    ensures Fnv(done + (path + [0] + contents + [0]), OFFSET)
            == Fnv([0], Fnv(contents, Fnv([0], Fnv(path, Fnv(done, OFFSET)))))
  {
    FnvAppends(done, path + [0] + contents + [0], OFFSET);
    var h := Fnv(done, OFFSET);
    FnvAppends(path + [0] + contents, [0], h);
    FnvAppends(path + [0], contents, h);
    FnvAppends(path, [0], h);
  }

  lemma {:induction false} StreamAppends(a: seq<Input>, b: seq<Input>)
    ensures Stream(a + b) == Stream(a) + Stream(b)
  {
    if b == [] {
      assert a + b == a;
    } else {
      var last := b[|b| - 1];
      StreamAppends(a, b[..|b| - 1]);
      assert (a + b)[..|a + b| - 1] == a + b[..|b| - 1] && (a + b)[|a + b| - 1] == last;
      var end := last.path + [0] + last.contents + [0];
      assert Stream(a) + Stream(b[..|b| - 1]) + end == Stream(a) + (Stream(b[..|b| - 1]) + end);
    }
  }

  /** The same files, but for one byte of one of them. */
  ghost predicate OneByteApart(a: seq<Input>, b: seq<Input>, k: nat, i: nat) {
    && |a| == |b| && k < |a|
    && (forall j | 0 <= j < |a| :: a[j].path == b[j].path && (j != k ==> a[j].contents == b[j].contents))
    && var x, y := a[k].contents, b[k].contents;
       |x| == |y| && i < |x| && x[i] != y[i] && forall j | 0 <= j < |x| && j != i :: x[j] == y[j]
  }

  /** The stream of inputs around one byte of one file. */
  lemma StreamAround(inputs: seq<Input>, k: nat, i: nat)
    requires k < |inputs| && i < |inputs[k].contents|
    ensures var x := inputs[k].contents;
            Stream(inputs)
            == (Stream(inputs[..k]) + inputs[k].path + [0] + x[..i]) + [x[i]] + (x[i + 1..] + [0] + Stream(inputs[k + 1..]))
  {
    var x := inputs[k].contents;
    var rest := inputs[k + 1..];
    assert inputs == inputs[..k] + ([inputs[k]] + rest);
    StreamAppends([inputs[k]], rest);
    StreamAppends(inputs[..k], [inputs[k]] + rest);
    assert Stream([inputs[k]]) == inputs[k].path + [0] + x + [0];
    Regroup(Stream(inputs[..k]), inputs[k].path, x, i, Stream(rest));
  }

  /** The stream depends on paths and bytes only. */
  lemma {:induction false} StreamReadsBytes(a: seq<Input>, b: seq<Input>)
    requires |a| == |b| && forall j | 0 <= j < |a| :: a[j].path == b[j].path && a[j].contents == b[j].contents
    ensures Stream(a) == Stream(b)
  {
    if a != [] {
      StreamReadsBytes(a[..|a| - 1], b[..|b| - 1]);
    }
  }

  lemma Regroup(before: seq<Byte>, path: seq<Byte>, x: seq<Byte>, i: nat, after: seq<Byte>)
    requires i < |x|
    ensures before + (path + [0] + x + [0] + after) == (before + path + [0] + x[..i]) + [x[i]] + (x[i + 1..] + [0] + after)
  {
    assert x == x[..i] + [x[i]] + x[i + 1..];
  }

  /** Any change of a single byte in any one input changes the fingerprint. */
  lemma OneByteChangesPrint(a: seq<Input>, b: seq<Input>, k: nat, i: nat)
    requires OneByteApart(a, b, k, i)
    ensures Print(a) != Print(b)
  {
    var x, y := a[k].contents, b[k].contents;
    StreamAround(a, k, i);
    StreamAround(b, k, i);
    StreamReadsBytes(a[..k], b[..k]);
    StreamReadsBytes(a[k + 1..], b[k + 1..]);
    assert x[..i] == y[..i] && x[i + 1..] == y[i + 1..];
    OneByteChangesFnv(Stream(a[..k]) + a[k].path + [0] + x[..i], x[i], y[i], x[i + 1..] + [0] + Stream(a[k + 1..]), OFFSET);
  }

  // ---- The known values ----

  lemma {:induction false} XorZero(x: nat)
    ensures Xor(x, 0) == x
  {
    if x != 0 {
      XorZero(x / 2);
    }
  }

  /** The lowest `n` bits are clear. */
  predicate Clear(x: nat, n: nat) {
    n == 0 || (x % 2 == 0 && Clear(x / 2, n - 1))
  }

  /** Exclusive or with a number of `n` bits leaves the higher bits alone. */
  lemma {:induction false} XorLowBits(high: nat, low: nat, y: nat, n: nat)
    requires Clear(high, n) && low < Power(n) && y < Power(n)
    ensures Xor(high + low, y) == high + Xor(low, y)
    decreases n
  {
    if n == 0 {
      XorZero(high);
    } else {
      XorLowBits(high / 2, low / 2, y / 2, n - 1);
      HalfOfSum(high, low);
      XorUnfolds(high + low, y);
      XorUnfolds(low, y);
    }
  }

  lemma HalfOfSum(high: nat, low: nat)
    requires high % 2 == 0
    ensures (high + low) / 2 == high / 2 + low / 2 && (high + low) % 2 == low % 2 && 2 * (high / 2) == high
  {
  }

  lemma LowByteOfOffset()
    ensures Xor(0x25, 0x61) == 0x44
  {
    XorUnfolds(0x25, 0x61);
    XorUnfolds(18, 48);
    XorUnfolds(9, 24);
    XorUnfolds(4, 12);
    XorUnfolds(2, 6);
    XorUnfolds(1, 3);
    XorUnfolds(0, 1);
  }

  lemma HighBytesOfOffset()
    ensures Clear(0xCBF29CE484222300, 8)
  {
    assert Clear(0xCBF29CE4842223 * 16, 4);
    assert Clear(0xCBF29CE4842223 * 32, 5);
    assert Clear(0xCBF29CE4842223 * 64, 6);
    assert Clear(0xCBF29CE4842223 * 128, 7);
  }

  lemma MixedOffset()
    ensures Xor(OFFSET, 0x61) == 0xCBF29CE484222344
  {
    LowByteOfOffset();
    PowerOfEight();
    HighBytesOfOffset();
    XorLowBits(0xCBF29CE484222300, 0x25, 0x61, 8);
  }

  lemma PowerOfEight()
    ensures Power(8) == 256
  {
    assert Power(4) == 16;
    PowerAdds(4, 4);
  }

  lemma MultipliedOffset()
    ensures 0xCBF29CE484222344 * PRIME % MODULUS == 0xAF63DC4C8601EC8C
  {
  }

  lemma OneByte(b: Byte, h: Word)
    ensures Fnv([b], h) == Mix(h, b) * PRIME % MODULUS
  {
    assert [b][..0] == [];
  }

  /** The published value of 64-bit FNV-1a for "a". */
  lemma KnownValue()
    ensures Fnv([0x61], OFFSET) == 0xAF63DC4C8601EC8C
  {
    MixedOffset();
    OneByte(0x61, OFFSET);
    MultipliedOffset();
  }

  // ---- The stream can be read back ----

  /** Inputs without a zero byte, as paths and texts are. */
  ghost predicate ZeroFree(inputs: seq<Input>) {
    forall i | 0 <= i < |inputs| :: 0 !in inputs[i].path && 0 !in inputs[i].contents
  }

  ghost predicate SameBytes(a: seq<Input>, b: seq<Input>) {
    |a| == |b| && forall i | 0 <= i < |a| :: a[i].path == b[i].path && a[i].contents == b[i].contents
  }

  lemma UpToZero(a: seq<Byte>, x: seq<Byte>, b: seq<Byte>, y: seq<Byte>)
    requires 0 !in a && 0 !in b && a + [0] + x == b + [0] + y
    ensures a == b && x == y
  {
    var s, t := a + [0] + x, b + [0] + y;
    assert s[|a|] == 0 && t[|b|] == 0;
    assert forall i | 0 <= i < |a| :: s[i] == a[i];
    assert forall i | 0 <= i < |b| :: t[i] == b[i];
    assert |a| == |b|;
    assert a == s[..|a|] && b == t[..|b|] && x == s[|a| + 1..] && y == t[|b| + 1..];
  }

  lemma FirstInput(inputs: seq<Input>)
    requires inputs != []
    ensures Stream(inputs) == inputs[0].path + [0] + (inputs[0].contents + [0] + Stream(inputs[1..]))
  {
    var first, rest := inputs[0], inputs[1..];
    assert inputs == [first] + rest;
    StreamAppends([first], rest);
    assert Stream([first]) == first.path + [0] + first.contents + [0];
    assert first.path + [0] + first.contents + [0] + Stream(rest) == first.path + [0] + (first.contents + [0] + Stream(rest));
  }

  /** Without zero bytes the separators tell files and contents apart: equal streams are of the
      same files with the same contents, in the same order. */
  lemma {:induction false} StreamReadsBack(a: seq<Input>, b: seq<Input>)
    requires ZeroFree(a) && ZeroFree(b)
    ensures Stream(a) == Stream(b) <==> SameBytes(a, b)
  {
    if SameBytes(a, b) {
      StreamReadsBytes(a, b);
    }
    if a != [] { FirstInput(a); }
    if b != [] { FirstInput(b); }
    if a != [] && b != [] && Stream(a) == Stream(b) {
      UpToZero(a[0].path, a[0].contents + [0] + Stream(a[1..]), b[0].path, b[0].contents + [0] + Stream(b[1..]));
      UpToZero(a[0].contents, Stream(a[1..]), b[0].contents, Stream(b[1..]));
      StreamReadsBack(a[1..], b[1..]);
      assert forall i | 0 < i < |a| :: a[i] == a[1..][i - 1] && b[i] == b[1..][i - 1];
    }
  }

  /** With zero bytes they do not: one file that holds a zero byte and a path after it streams as
      two empty files do, so the fingerprints are equal. */
  lemma ZeroByteExample()
    ensures var a, b := [Input([97], [0, 98, 0], true)], [Input([97], [], true), Input([98], [], true)];
            Print(a) == Print(b) && !SameBytes(a, b)
  {
    var a, b := [Input([97], [0, 98, 0], true)], [Input([97], [], true), Input([98], [], true)];
    FirstInput(a);
    FirstInput(b);
    FirstInput(b[1..]);
    assert a[1..] == [] && b[1..][1..] == [];
    assert Stream(a) == [97, 0, 0, 98, 0, 0] == Stream(b);
  }

  // ---- The sidecar ----

  const DIGITS := "0123456789"

  /** `to_string` of an unsigned number. */
  function Decimal(n: nat): string {
    if n < 10 then [DIGITS[n]] else Decimal(n / 10) + [DIGITS[n % 10]]
  }

  lemma {:induction false} DecimalInjective(m: nat, n: nat)
    requires Decimal(m) == Decimal(n)
    ensures m == n
  {
    DigitsDiffer(m % 10, n % 10);
    assert Decimal(m)[|Decimal(m)| - 1] == DIGITS[m % 10] && Decimal(n)[|Decimal(n)| - 1] == DIGITS[n % 10];
    if m >= 10 && n >= 10 {
      assert Decimal(m)[..|Decimal(m)| - 1] == Decimal(m / 10) && Decimal(n)[..|Decimal(n)| - 1] == Decimal(n / 10);
      DecimalInjective(m / 10, n / 10);
    } else {
      DecimalLength(m);
      DecimalLength(n);
    }
  }

  lemma DigitsDiffer(a: nat, b: nat)
    requires a < 10 && b < 10
    ensures DIGITS[a] == DIGITS[b] <==> a == b
  {
    assert forall i, j | 0 <= i < j < 10 :: DIGITS[i] != DIGITS[j];
  }

  lemma DecimalLength(n: nat)
    ensures |Decimal(n)| >= 1
    ensures |Decimal(n)| == 1 <==> n < 10
  {
    if n >= 10 { DecimalLength(n / 10); }
  }

  predicate Space(c: char) {
    c in " \t\n\r"
  }

  function TrimStart(s: string): string {
    if s != [] && Space(s[0]) then TrimStart(s[1..]) else s
  }

  function TrimEnd(s: string): string {
    if s != [] && Space(s[|s| - 1]) then TrimEnd(s[..|s| - 1]) else s
  }

  function Trim(s: string): string {
    TrimEnd(TrimStart(s))
  }

  lemma TrimKeepsDecimal(n: nat)
    ensures Trim(Decimal(n)) == Decimal(n)
  {
    DecimalLength(n);
    FirstDigit(n);
    assert Decimal(n)[|Decimal(n)| - 1] == DIGITS[n % 10];
  }

  lemma {:induction false} FirstDigit(n: nat)
    ensures Decimal(n)[0] in DIGITS
  {
    if n >= 10 {
      FirstDigit(n / 10);
      DecimalLength(n / 10);
    }
  }

  /** One successful compilation: its inputs, and whether writing the sidecar succeeds. */
  datatype Compilation = Compilation(inputs: seq<Input>, saved: bool)

  /** The sidecar is written for readable inputs, and a write that fails goes unnoticed. */
  predicate Records(c: Compilation) {
    Readable(c.inputs) && c.saved
  }

  /** The inputs that the sidecar was last written for. */
  function Recorded(compiled: seq<Compilation>): Option<seq<Input>> {
    if compiled == [] then None
    else
      var last := compiled[|compiled| - 1];
      if Records(last) then Some(last.inputs) else Recorded(compiled[..|compiled| - 1])
  }

  /** What `up_to_date` answers after some compilations. */
  predicate Answers(compiled: seq<Compilation>, inputs: seq<Input>) {
    match Recorded(compiled)
    case Some(a) => Readable(inputs) && Print(a) == Print(inputs)
    case None => false
  }

  /** The generated file's presence and its sidecar. */
  class Output {
    var exists_: bool
    var sidecar: Option<string>
    /** Every successful compilation so far. */
    ghost var compiled: seq<Compilation>

    constructor ()
      ensures Valid() && compiled == []
    {
      exists_, sidecar, compiled := false, None, [];
    }

    ghost predicate Valid()
      reads this
    {
      && (exists_ <==> compiled != [])
      && sidecar == match Recorded(compiled) { case Some(a) => Some(Decimal(Print(a))) case None => None }
    }

    /** `up_to_date` */
    method UpToDate(inputs: seq<Input>) returns (ok: bool)
      requires Valid()
      ensures ok <==> Answers(compiled, inputs)
    {
      var hash := ContentHash(inputs);
      if hash.None? || sidecar.None? {
        return false;
      }
      ok := exists_ && Trim(sidecar.value) == Decimal(hash.value);
      TrimKeepsDecimal(Print(Recorded(compiled).value));
      if ok {
        DecimalInjective(Print(Recorded(compiled).value), hash.value);
      }
    }

    /** `slint_build::compile`, then `record`: unreadable inputs leave the sidecar as it is, and
        so does a write that fails, whose result is discarded. */
    method Compile(inputs: seq<Input>, saved: bool)
      requires Valid()
      modifies this
      ensures Valid() && compiled == old(compiled) + [Compilation(inputs, saved)]
    {
      exists_ := true;
      compiled := compiled + [Compilation(inputs, saved)];
      assert compiled[..|compiled| - 1] == old(compiled);
      var hash := ContentHash(inputs);
      if hash.Some? && saved {
        sidecar := Some(Decimal(hash.value));
      }
    }
  }

  lemma RecordedNext(compiled: seq<Compilation>, last: Compilation)
    ensures Recorded(compiled + [last]) == if Records(last) then Some(last.inputs) else Recorded(compiled)
  {
    assert (compiled + [last])[..|compiled|] == compiled;
  }

  lemma {:induction false} RecordedIsReadable(compiled: seq<Compilation>)
    ensures Recorded(compiled).Some? ==> Readable(Recorded(compiled).value)
  {
    if compiled != [] {
      RecordedIsReadable(compiled[..|compiled| - 1]);
    }
  }

  /** Over any sequence of compilations: every yes is for the inputs last compiled exactly if
      nothing was ever recorded, or those inputs have the fingerprint that was last recorded. */
  lemma YesMeansLastCompiled(compiled: seq<Compilation>)
    requires compiled != []
    ensures var last := compiled[|compiled| - 1].inputs;
            (forall inputs | Answers(compiled, inputs) :: Print(inputs) == Print(last))
            <==> Recorded(compiled).None? || Print(Recorded(compiled).value) == Print(last)
  {
    RecordedIsReadable(compiled);
    if Recorded(compiled).Some? {
      assert Answers(compiled, Recorded(compiled).value);
    }
  }

  /** After a recorded compilation that is so: yes exactly for its fingerprint, hence no after
      any change of one byte, and no for unreadable inputs. */
  lemma RecordedCompileIsRemembered(compiled: seq<Compilation>, inputs: seq<Input>)
    requires compiled != [] && Records(compiled[|compiled| - 1])
    ensures var last := compiled[|compiled| - 1].inputs;
            && (Answers(compiled, inputs) <==> Hash(inputs) == Hash(last))
            && (forall k, i | 0 <= k && 0 <= i && OneByteApart(last, inputs, k, i) :: !Answers(compiled, inputs))
  {
    var last := compiled[|compiled| - 1].inputs;
    forall k, i | 0 <= k && 0 <= i && OneByteApart(last, inputs, k, i) ensures !Answers(compiled, inputs) {
      OneByteChangesPrint(last, inputs, k, i);
    }
  }

  /** After an unrecorded one it is not: the output was last compiled from other bytes than those
      for which the answer is yes. */
  lemma UnrecordedCompileGoesUnnoticed(a: seq<Input>, b: Compilation, k: nat, i: nat)
    requires Readable(a) && !Records(b) && OneByteApart(a, b.inputs, k, i)
    ensures Answers([Compilation(a, true), b], a) && Print(a) != Print(b.inputs)
  {
    var first := Compilation(a, true);
    assert [] + [first] + [b] == [first, b];
    RecordedNext([], first);
    RecordedNext([] + [first], b);
    OneByteChangesPrint(a, b.inputs, k, i);
  }

  /** Three steps that show it: compile one byte, compile another that cannot be read, ask for
      the first. */
  lemma UnreadableCompileExample()
    ensures var a, b := [Input([97], [1], true)], [Input([97], [2], false)];
            Answers([Compilation(a, true), Compilation(b, true)], a) && Print(a) != Print(b)
  {
    var a, b := [Input([97], [1], true)], [Input([97], [2], false)];
    assert Readable(a) && !b[0].readable;
    UnrecordedCompileGoesUnnoticed(a, Compilation(b, true), 0, 0);
  }

  /** And three more: the second compilation reads its byte, but its sidecar is not written. */
  lemma UnsavedCompileExample()
    ensures var a, b := [Input([97], [1], true)], [Input([97], [2], true)];
            Answers([Compilation(a, true), Compilation(b, false)], a) && Print(a) != Print(b)
  {
    var a, b := [Input([97], [1], true)], [Input([97], [2], true)];
    assert Readable(a);
    UnrecordedCompileGoesUnnoticed(a, Compilation(b, false), 0, 0);
  }

  /** Compile, change the inputs, ask: whatever was compiled before. */
  method CompileThenAsk(output: Output, a: seq<Input>, saved: bool, b: seq<Input>) returns (ok: bool)
    requires output.Valid()
    modifies output
    ensures output.Valid() && output.compiled == old(output.compiled) + [Compilation(a, saved)]
    ensures Records(Compilation(a, saved)) ==> (ok <==> Hash(a) == Hash(b))
    ensures !Records(Compilation(a, saved)) ==> (ok <==> Answers(old(output.compiled), b))
    ensures Records(Compilation(a, saved)) ==> forall k, i | 0 <= k && 0 <= i && OneByteApart(a, b, k, i) :: !ok
  {
    output.Compile(a, saved);
    ok := output.UpToDate(b);
    ghost var compiled := output.compiled;
    assert compiled[..|compiled| - 1] == old(output.compiled);
    if Records(Compilation(a, saved)) {
      RecordedCompileIsRemembered(compiled, b);
    }
  }
}
