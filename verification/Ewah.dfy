/** Compressed bitmaps in the EWAH format: iteration over set bits and decoding. */
module Ewah {
  import opened Options

  type Byte = b: nat | b < 256 witness 0

  /** A word of 64 bits as a number; its bit `i` has the value 2^i. */
  type Word = nat

  function Pow(base: nat, n: nat): (p: nat)
    ensures base > 0 ==> p > 0
  {
    if n == 0 then 1 else base * Pow(base, n - 1)
  }

  const RUNNING_COUNT: nat := 0x1_0000_0000

  // ----- the fields of a run-length word

  predicate RunBitIsSet(w: Word) { w % 2 == 1 }

  function RunningLength(w: Word): nat { w / 2 % RUNNING_COUNT }

  function LiteralWords(w: Word): nat { w / 2 / RUNNING_COUNT }

  /** Masks and shifts of 64 bit words read the same fields as these quotients and remainders. */
  lemma FieldsByShift(w: bv64)
    ensures w & 1 == w % 2
    ensures (w >> 1) & 0xffff_ffff == w / 2 % 0x1_0000_0000
    ensures w >> 33 == w / 2 / 0x1_0000_0000
  {
  }

  /** A word that is put together from its fields has these fields. */
  lemma FieldsOfWord(bit: bool, length: nat, literals: nat)
    requires length < 0x1_0000_0000
    ensures var w := (if bit then 1 else 0) + 2 * length + 0x2_0000_0000 * literals;
      RunBitIsSet(w) == bit && RunningLength(w) == length && LiteralWords(w) == literals
  {
    var b := if bit then 1 else 0;
    var w := b + 2 * length + 0x2_0000_0000 * literals;
    assert w == 2 * (length + 0x1_0000_0000 * literals) + b;
    assert w / 2 == length + 0x1_0000_0000 * literals;
  }

  // ----- the naive expansion

  function Repeat(b: bool, n: nat): seq<bool> { seq(n, i => b) }

  predicate BitIsSet(w: Word, i: nat) { w / Pow(2, i) % 2 == 1 }

  function LiteralBits(w: Word): seq<bool> { seq(64, i requires i >= 0 => BitIsSet(w, i)) }

  /** The word with the given bits, the lowest one first. */
  function WordOf(bits: seq<bool>): Word {
    if bits == [] then 0 else (if bits[0] then 1 else 0) + 2 * WordOf(bits[1..])
  }

  lemma TooSmall(k: int, d: int)
    requires -d < k * d < d
    ensures k == 0
  {
  }

  lemma Quotient(w: nat, d: nat, q: nat, r: nat)
    requires d > 0 && w == q * d + r && r < d
    ensures w / d == q
  {
    var other, rest := w / d, w % d;
    assert w == other * d + rest;
    Distribute(other, q, d);
    TooSmall(other - q, d);
  }

  lemma Distribute(a: int, b: int, d: int)
    ensures (a - b) * d == a * d - b * d
  {
  }

  lemma HalfFirst(w: nat, m: nat)
    requires m > 0
    ensures w / (2 * m) == w / 2 / m
  {
    var half := w / 2;
    var q, r := half / m, half % m;
    assert half == q * m + r;
    assert w == q * (2 * m) + (2 * r + w % 2) by { assert q * (2 * m) == 2 * (q * m); }
    Quotient(w, 2 * m, q, 2 * r + w % 2);
  }

  lemma {:induction false} BitOfWord(bits: seq<bool>, i: nat)
    requires i < |bits|
    ensures BitIsSet(WordOf(bits), i) == bits[i]
    decreases i
  {
    var w := WordOf(bits);
    if i == 0 {
      assert Pow(2, 0) == 1 && w / 1 == w;
    } else {
      BitOfWord(bits[1..], i - 1);
      HalfFirst(w, Pow(2, i - 1));
      assert w / 2 == WordOf(bits[1..]);
    }
  }

  /** The lowest bit of a word comes first. */
  lemma LiteralBitsOfWord(bits: seq<bool>)
    requires |bits| == 64
    ensures LiteralBits(WordOf(bits)) == bits
  {
    forall i | 0 <= i < 64 ensures LiteralBits(WordOf(bits))[i] == bits[i] { BitOfWord(bits, i); }
  }

  function Literals(words: seq<Word>): seq<bool> {
    if words == [] then [] else Literals(words[..|words| - 1]) + LiteralBits(words[|words| - 1])
  }

  /** Each run-length word is followed by as many literal words as it says. */
  predicate WellFormed(words: seq<Word>) {
    words == [] || (var n := 1 + LiteralWords(words[0]); n <= |words| && WellFormed(words[n..]))
  }

  /** The bits of a run-length word and its literal words. */
  function Chunk(words: seq<Word>): (bits: seq<bool>)
    requires words != [] && WellFormed(words)
  {
    Repeat(RunBitIsSet(words[0]), RunningLength(words[0]) * 64) + Literals(words[1..1 + LiteralWords(words[0])])
  }

  /** All bits, uncompressed. */
  function Expand(words: seq<Word>): seq<bool>
    requires WellFormed(words)
  {
    if words == [] then [] else Chunk(words) + Expand(words[1 + LiteralWords(words[0])..])
  }

  /** The indices of all set bits. */
  function SetBits(bits: seq<bool>): seq<nat> {
    if bits == [] then [] else
      var n := |bits| - 1;
      SetBits(bits[..n]) + if bits[n] then [n] else []
  }

  /** SetBits lists exactly the set bits, in strictly increasing order. */
  lemma {:induction false} SetBitsExact(bits: seq<bool>)
    ensures forall i: nat :: i in SetBits(bits) <==> i < |bits| && bits[i]
    ensures forall i, j :: 0 <= i < j < |SetBits(bits)| ==> SetBits(bits)[i] < SetBits(bits)[j]
    decreases |bits|
  {
    if bits != [] {
      var n := |bits| - 1;
      SetBitsExact(bits[..n]);
      var front := SetBits(bits[..n]);
      forall i | 0 <= i < |front| ensures front[i] < n {
        assert front[i] in front;
      }
      assert forall i: nat :: i in SetBits(bits) <==> i in front || (i == n && bits[n]);
    }
  }

  lemma SetBitsNext(bits: seq<bool>, b: bool)
    ensures SetBits(bits + [b]) == SetBits(bits) + if b then [|bits|] else []
  {
  }

  lemma {:induction false} SetBitsPrefix(bits: seq<bool>, more: seq<bool>)
    ensures SetBits(bits) <= SetBits(bits + more)
    decreases |more|
  {
    if more == [] {
      assert bits + more == bits;
    } else {
      var n := |more| - 1;
      SetBitsPrefix(bits, more[..n]);
      assert bits + more == bits + more[..n] + [more[n]];
      SetBitsNext(bits + more[..n], more[n]);
    }
  }

  // ----- iteration

  /** A callback sees the indices passed to it so far, the newest last, and says whether to go on. */
  type Callback = seq<nat> -> bool

  /** The callback went on after each of the calls. */
  ghost predicate AllAccepted(f: Callback, calls: seq<nat>) {
    forall k :: 0 < k <= |calls| ==> f(calls[..k])
  }

  /** `calls` are the set bits of `bits`, all accepted; or a prefix of them of which the last one was not accepted. */
  ghost predicate Iterated(f: Callback, bits: seq<bool>, calls: seq<nat>, finished: bool) {
    if finished then calls == SetBits(bits) && AllAccepted(f, calls)
    else calls != [] && calls <= SetBits(bits) && !f(calls) && AllAccepted(f, calls[..|calls| - 1])
  }

  lemma IteratedNext(f: Callback, bits: seq<bool>, calls: seq<nat>, b: bool)
    requires Iterated(f, bits, calls, true)
    ensures !b ==> Iterated(f, bits + [b], calls, true)
    ensures b ==> Iterated(f, bits + [b], calls + [|bits|], f(calls + [|bits|]))
  {
    SetBitsNext(bits, b);
    var next := calls + [|bits|];
    assert next[..|calls|] == calls && next[..|next|] == next;
    forall k | 0 < k <= |calls| ensures next[..k] == calls[..k] {}
  }

  /** Once stopped, further bits do not matter. */
  lemma StoppedStays(f: Callback, bits: seq<bool>, more: seq<bool>, calls: seq<nat>)
    requires Iterated(f, bits, calls, false)
    ensures Iterated(f, bits + more, calls, false)
  {
    SetBitsPrefix(bits, more);
  }

  lemma {:induction false} SkipUnset(f: Callback, bits: seq<bool>, calls: seq<nat>, n: nat)
    requires Iterated(f, bits, calls, true)
    ensures Iterated(f, bits + Repeat(false, n), calls, true)
  {
    if n == 0 {
      assert bits + Repeat(false, n) == bits;
    } else {
      SkipUnset(f, bits, calls, n - 1);
      assert bits + Repeat(false, n) == bits + Repeat(false, n - 1) + [false];
      IteratedNext(f, bits + Repeat(false, n - 1), calls, false);
    }
  }

  /** The bits of a run. */
  method ForEachInRun(f: Callback, w: Word, index: nat, calls: seq<nat>, ghost bits: seq<bool>)
    returns (calls': seq<nat>, finished: bool)
    requires index == |bits| && Iterated(f, bits, calls, true)
    ensures Iterated(f, bits + Repeat(RunBitIsSet(w), RunningLength(w) * 64), calls', finished)
  {
    calls' := calls;
    var n := RunningLength(w) * 64;
    if !RunBitIsSet(w) {
      SkipUnset(f, bits, calls, n);
      return calls', true;
    }
    ghost var further := bits;
    assert bits + Repeat(true, 0) == bits;
    for i := 0 to n
      invariant further == bits + Repeat(true, i) && |further| == index + i
      invariant Iterated(f, further, calls', true)
    {
      IteratedNext(f, further, calls', true);
      RepeatNext(bits, i, n);
      calls' := calls' + [index + i];
      further := further + [true];
      if !f(calls') {
        StoppedStays(f, further, Repeat(true, n - i - 1), calls');
        return calls', false;
      }
    }
    return calls', true;
  }

  lemma RepeatNext(bits: seq<bool>, i: nat, n: nat)
    requires i < n
    ensures bits + Repeat(true, i) + [true] == bits + Repeat(true, i + 1)
    ensures bits + Repeat(true, i) + [true] + Repeat(true, n - i - 1) == bits + Repeat(true, n)
  {
  }

  lemma BitsNext(bits: seq<bool>, more: seq<bool>, i: nat)
    requires i < |more|
    ensures bits + more[..i] + [more[i]] == bits + more[..i + 1]
    ensures bits + more[..i] + [more[i]] + more[i + 1..] == bits + more
  {
  }

  /** The bits of one literal word. */
  method ForEachInLiteral(f: Callback, w: Word, index: nat, calls: seq<nat>, ghost bits: seq<bool>)
    returns (calls': seq<nat>, finished: bool)
    requires index == |bits| && Iterated(f, bits, calls, true)
    ensures Iterated(f, bits + LiteralBits(w), calls', finished)
  {
    calls' := calls;
    ghost var all := LiteralBits(w);
    assert bits + all[..0] == bits;
    for i := 0 to 64
      invariant Iterated(f, bits + all[..i], calls', true)
    {
      IteratedNext(f, bits + all[..i], calls', all[i]);
      BitsNext(bits, all, i);
      if BitIsSet(w, i) {
        calls' := calls' + [index + i];
        if !f(calls') {
          StoppedStays(f, bits + all[..i] + [all[i]], all[i + 1..], calls');
          return calls', false;
        }
      }
    }
    assert all[..64] == all;
    return calls', true;
  }

  /** The bits of the literal words that follow a run-length word. */
  method ForEachInLiterals(f: Callback, words: seq<Word>, index: nat, calls: seq<nat>, ghost bits: seq<bool>)
    returns (calls': seq<nat>, finished: bool)
    requires index == |bits| && Iterated(f, bits, calls, true)
    ensures Iterated(f, bits + Literals(words), calls', finished)
  {
    calls', finished := calls, true;
    assert bits + Literals(words[..0]) == bits;
    for i := 0 to |words|
      invariant Iterated(f, bits + Literals(words[..i]), calls', true)
    {
      LiteralsNext(words, i, bits);
      calls', finished := ForEachInLiteral(f, words[i], index + 64 * i, calls', bits + Literals(words[..i]));
      if !finished {
        StoppedStays(f, bits + Literals(words[..i + 1]), Literals(words[i + 1..]), calls');
        return calls', false;
      }
    }
    assert words[..|words|] == words;
    return calls', true;
  }

  lemma {:induction false} LiteralsSplit(words: seq<Word>, i: nat)
    requires i <= |words|
    ensures Literals(words) == Literals(words[..i]) + Literals(words[i..])
    ensures |Literals(words)| == 64 * |words|
    decreases |words|
  {
    if i < |words| {
      var n := |words| - 1;
      LiteralsSplit(words[..n], i);
      assert words[..n][..i] == words[..i];
      assert words[i..][..n - i] == words[..n][i..];
    } else if words != [] {
      LiteralsSplit(words[..|words| - 1], 0);
      assert words[..i] == words && Literals(words[i..]) == [];
    }
  }

  lemma LiteralsNext(words: seq<Word>, i: nat, bits: seq<bool>)
    requires i < |words|
    ensures |bits + Literals(words[..i])| == |bits| + 64 * i
    ensures bits + Literals(words[..i + 1]) == bits + Literals(words[..i]) + LiteralBits(words[i])
    ensures bits + Literals(words[..i + 1]) + Literals(words[i + 1..]) == bits + Literals(words)
  {
    LiteralsSplit(words[..i], i);
    LiteralsSplit(words, i + 1);
    assert words[..i + 1][..i] == words[..i];
  }

  method ForEachInChunk(f: Callback, words: seq<Word>, index: nat, calls: seq<nat>, ghost bits: seq<bool>)
    returns (calls': seq<nat>, finished: bool, index': nat)
    requires words != [] && WellFormed(words) && index == |bits| && Iterated(f, bits, calls, true)
    ensures Iterated(f, bits + Chunk(words), calls', finished)
    ensures finished ==> index' == |bits + Chunk(words)|
  {
    var literals := words[1..1 + LiteralWords(words[0])];
    ghost var run := Repeat(RunBitIsSet(words[0]), RunningLength(words[0]) * 64);
    assert bits + run + Literals(literals) == bits + Chunk(words);
    calls', finished := ForEachInRun(f, words[0], index, calls, bits);
    index' := index + RunningLength(words[0]) * 64;
    if !finished {
      StoppedStays(f, bits + run, Literals(literals), calls');
      return;
    }
    calls', finished := ForEachInLiterals(f, literals, index', calls', bits + run);
    LiteralsSplit(literals, 0);
    index' := index' + 64 * |literals|;
  }

  lemma ExpandNext(bits: seq<bool>, words: seq<Word>, next: seq<Word>)
    requires words != [] && WellFormed(words) && next == words[1 + LiteralWords(words[0])..]
    ensures bits + Chunk(words) + Expand(next) == bits + Expand(words)
  {
  }

  /** Calls back for each set bit until the callback stops. The calls are the set bits of the expansion, in order. */
  method ForEachSetBit(words: seq<Word>, f: Callback) returns (calls: seq<nat>, finished: bool)
    requires WellFormed(words)
    ensures Iterated(f, Expand(words), calls, finished)
  {
    calls, finished := [], true;
    var rest, index := words, 0;
    ghost var bits: seq<bool> := [];
    while rest != []
      invariant WellFormed(rest) && Expand(words) == bits + Expand(rest) && index == |bits|
      invariant finished && Iterated(f, bits, calls, finished)
      decreases |rest|
    {
      var next := rest[1 + LiteralWords(rest[0])..];
      ghost var further := bits + Chunk(rest);
      ExpandNext(bits, rest, next);
      calls, finished, index := ForEachInChunk(f, rest, index, calls, bits);
      if !finished {
        StoppedStays(f, further, Expand(next), calls);
        return;
      }
      bits, rest := further, next;
    }
    assert bits + Expand(rest) == bits;
  }

  // ----- decoding

  datatype Vec = Vec(numBits: nat, bits: seq<Word>, rlw: nat)

  datatype Error = EofAmountOfBits | EofChunkLength | EofBitData | EofRunLengthWidth

  datatype Result<T> = Ok(value: T) | Err(error: Error)

  function FromBytes(bytes: seq<Byte>): nat {
    if bytes == [] then 0 else FromBytes(bytes[..|bytes| - 1]) * 256 + bytes[|bytes| - 1]
  }

  /** The `n` lowest bytes of a number, the most significant one first. */
  function ToBytes(n: nat, value: nat): (bytes: seq<Byte>)
    ensures |bytes| == n
  {
    if n == 0 then [] else ToBytes(n - 1, value / 256) + [value % 256]
  }

  lemma {:induction false} BytesRoundTrip(n: nat, value: nat)
    requires value < Pow(256, n)
    ensures FromBytes(ToBytes(n, value)) == value
  {
    if n > 0 {
      BytesRoundTrip(n - 1, value / 256);
      assert ToBytes(n, value)[..n - 1] == ToBytes(n - 1, value / 256);
    }
  }

  lemma {:induction false} NumberRoundTrip(bytes: seq<Byte>)
    ensures FromBytes(bytes) < Pow(256, |bytes|)
    ensures ToBytes(|bytes|, FromBytes(bytes)) == bytes
  {
    if bytes != [] {
      NumberRoundTrip(bytes[..|bytes| - 1]);
    }
  }

  /** The first byte is the most significant one. */
  lemma {:induction false} FirstByteCounts(b: Byte, rest: seq<Byte>)
    ensures FromBytes([b] + rest) == b * Pow(256, |rest|) + FromBytes(rest)
  {
    if rest == [] {
      assert [b] + rest == [b] && FromBytes([b]) == FromBytes([]) * 256 + b by { assert [b][..0] == []; }
      assert Pow(256, 0) == 1;
    } else {
      var n := |rest| - 1;
      FirstByteCounts(b, rest[..n]);
      assert ([b] + rest)[..n + 1] == [b] + rest[..n];
      assert b * Pow(256, n) * 256 == b * Pow(256, n + 1);
    }
  }

  const U32: nat := 4
  const U64: nat := 8

  ghost predicate Fits(v: Vec) {
    && v.numBits < Pow(256, U32) && |v.bits| < Pow(256, U32) && v.rlw < Pow(256, U32)
    && forall i :: 0 <= i < |v.bits| ==> v.bits[i] < Pow(256, U64)
  }

  function EncodeWords(words: seq<Word>): seq<Byte> {
    if words == [] then [] else EncodeWords(words[..|words| - 1]) + ToBytes(U64, words[|words| - 1])
  }

  /** The serialized form: the amount of bits, the amount of words, the words, and the position of the last run-length
      word, all in big-endian order. */
  function Encode(v: Vec): seq<Byte> {
    ToBytes(U32, v.numBits) + ToBytes(U32, |v.bits|) + EncodeWords(v.bits) + ToBytes(U32, v.rlw)
  }

  /** Reads a number of four bytes. */
  method ReadU32(data: seq<Byte>) returns (number: nat, rest: seq<Byte>, ok: bool)
    ensures ok <==> |data| >= U32
    ensures ok ==> number == FromBytes(data[..U32]) && rest == data[U32..]
  {
    if |data| < U32 { return 0, data, false; }
    return FromBytes(data[..U32]), data[U32..], true;
  }

  ghost predicate Decodes(data: seq<Byte>, v: Vec, rest: seq<Byte>) {
    Fits(v) && data == Encode(v) + rest
  }

  /** The data fixes the amounts that come first, and has room for all that they announce. */
  lemma DecodesHead(data: seq<Byte>, v: Vec, rest: seq<Byte>)
    requires Decodes(data, v, rest)
    ensures |data| == 3 * U32 + U64 * |v.bits| + |rest|
    ensures FromBytes(data[..U32]) == v.numBits && FromBytes(data[U32..][..U32]) == |v.bits|
    ensures data[2 * U32..][..U64 * |v.bits|] == EncodeWords(v.bits)
    ensures FromBytes(data[2 * U32 + U64 * |v.bits|..][..U32]) == v.rlw && rest == data[3 * U32 + U64 * |v.bits|..]
  {
    var a, b, c, d := ToBytes(U32, v.numBits), ToBytes(U32, |v.bits|), EncodeWords(v.bits), ToBytes(U32, v.rlw);
    EncodeWordsLength(v.bits);
    BytesRoundTrip(U32, v.numBits);
    BytesRoundTrip(U32, |v.bits|);
    BytesRoundTrip(U32, v.rlw);
    assert data == a + b + c + d + rest;
    assert data[..U32] == a && data[U32..][..U32] == b;
    assert data[2 * U32..][..|c|] == c && data[2 * U32 + |c|..][..U32] == d;
  }

  /** Where everything is in the serialized form. */
  lemma Layout(data: seq<Byte>, v: Vec, rest: seq<Byte>)
    requires Decodes(data, v, rest)
    ensures var n := |v.bits|;
      && |data| == 12 + 8 * n + |rest|
      && FromBytes(data[..4]) == v.numBits && FromBytes(data[4..8]) == n
      && (forall i :: 0 <= i < n ==> FromBytes(data[8 + 8 * i..16 + 8 * i]) == v.bits[i])
      && FromBytes(data[8 + 8 * n..12 + 8 * n]) == v.rlw && data[12 + 8 * n..] == rest
  {
    var n := |v.bits|;
    DecodesHead(data, v, rest);
    assert data[4..8] == data[U32..][..U32] && data[8 + 8 * n..12 + 8 * n] == data[2 * U32 + U64 * n..][..U32];
    var words := data[8..][..8 * n];
    forall i | 0 <= i < n ensures FromBytes(data[8 + 8 * i..16 + 8 * i]) == v.bits[i] {
      WordAt(v.bits, i);
      assert data[8 + 8 * i..16 + 8 * i] == words[8 * i..8 * i + 8];
    }
  }

  lemma {:induction false} WordAt(words: seq<Word>, i: nat)
    requires i < |words| && words[i] < Pow(256, U64)
    ensures 8 * i + 8 <= |EncodeWords(words)| && FromBytes(EncodeWords(words)[8 * i..8 * i + 8]) == words[i]
    decreases |words|
  {
    var n := |words| - 1;
    EncodeWordsLength(words);
    EncodeWordsLength(words[..n]);
    if i < n {
      WordAt(words[..n], i);
      assert EncodeWords(words)[8 * i..8 * i + 8] == EncodeWords(words[..n])[8 * i..8 * i + 8];
    } else {
      BytesRoundTrip(U64, words[n]);
      assert EncodeWords(words)[8 * n..8 * n + 8] == ToBytes(U64, words[n]);
    }
  }

  lemma {:induction false} WordsUnique(a: seq<Word>, b: seq<Word>)
    requires EncodeWords(a) == EncodeWords(b) && |a| == |b|
    requires forall i :: 0 <= i < |a| ==> a[i] < Pow(256, U64) && b[i] < Pow(256, U64)
    ensures a == b
  {
    if a != [] {
      var n := |a| - 1;
      var x, y := EncodeWords(a[..n]), EncodeWords(b[..n]);
      EncodeWordsLength(a[..n]);
      EncodeWordsLength(b[..n]);
      assert x == EncodeWords(a)[..|x|] && y == EncodeWords(b)[..|x|];
      assert ToBytes(U64, a[n]) == EncodeWords(a)[|x|..] && ToBytes(U64, b[n]) == EncodeWords(b)[|x|..];
      BytesRoundTrip(U64, a[n]);
      BytesRoundTrip(U64, b[n]);
      WordsUnique(a[..n], b[..n]);
      assert a == a[..n] + [a[n]] && b == b[..n] + [b[n]];
    }
  }

  /** At most one bitmap and remainder fit the data. */
  lemma DecodesUnique(data: seq<Byte>, v: Vec, rest: seq<Byte>, v': Vec, rest': seq<Byte>)
    requires Decodes(data, v, rest) && Decodes(data, v', rest')
    ensures v == v' && rest == rest'
  {
    DecodesHead(data, v, rest);
    DecodesHead(data, v', rest');
    WordsUnique(v.bits, v'.bits);
  }

  lemma {:induction false} EncodeWordsLength(words: seq<Word>)
    ensures |EncodeWords(words)| == U64 * |words|
  {
    if words != [] {
      EncodeWordsLength(words[..|words| - 1]);
    }
  }

  lemma EncodeWordsNext(words: seq<Word>, w: Word)
    ensures EncodeWords(words + [w]) == EncodeWords(words) + ToBytes(U64, w)
  {
  }

  /** Reads as many words of eight bytes as the data holds. */
  method ReadWords(data: seq<Byte>, len: nat) returns (words: seq<Word>)
    requires |data| == len * U64
    ensures |words| == len && EncodeWords(words) == data
    ensures forall i :: 0 <= i < |words| ==> words[i] < Pow(256, U64)
  {
    words := [];
    var rest := data;
    for i := 0 to len
      invariant |words| == i && |rest| == (len - i) * U64 && EncodeWords(words) + rest == data
      invariant forall k :: 0 <= k < |words| ==> words[k] < Pow(256, U64)
    {
      var bytes := rest[..U64];
      NumberRoundTrip(bytes);
      EncodeWordsNext(words, FromBytes(bytes));
      assert rest == bytes + rest[U64..];
      words := words + [FromBytes(bytes)];
      rest := rest[U64..];
    }
  }

  /** What is missing at the end of data that is too short for what it announces. */
  ghost function Missing(data: seq<Byte>): (error: Option<Error>)
    ensures error.None? <==> |data| >= 2 * U32 && |data| >= 3 * U32 + U64 * FromBytes(data[U32..][..U32])
  {
    if |data| < U32 then Some(EofAmountOfBits)
    else if |data| < 2 * U32 then Some(EofChunkLength)
    else if |data| < 2 * U32 + U64 * FromBytes(data[U32..][..U32]) then Some(EofBitData)
    else if |data| < 3 * U32 + U64 * FromBytes(data[U32..][..U32]) then Some(EofRunLengthWidth)
    else None
  }

  /** Data that is too short for what it announces encodes nothing. */
  lemma TooShort(data: seq<Byte>)
    requires Missing(data).Some?
    ensures forall v, rest :: !Decodes(data, v, rest)
  {
    forall v, rest | Fits(v) ensures data != Encode(v) + rest {
      EncodeWordsLength(v.bits);
      var full := Encode(v) + rest;
      assert Decodes(full, v, rest);
      DecodesHead(full, v, rest);
    }
  }

  lemma Reassociate(data: seq<Byte>, n: nat)
    requires |data| >= 3 * U32 + n
    ensures data ==
      data[..U32] + data[U32..][..U32] + data[2 * U32..][..n] + data[2 * U32 + n..][..U32] + data[3 * U32 + n..]
  {
  }

  /** Parts that follow each other make up an encoded bitmap and a remainder. */
  lemma Assembled(data: seq<Byte>, v: Vec, n: nat)
    requires n == U64 * |v.bits| && |data| >= 3 * U32 + n
    requires v.numBits == FromBytes(data[..U32]) && |v.bits| == FromBytes(data[U32..][..U32])
    requires EncodeWords(v.bits) == data[2 * U32..][..n] && v.rlw == FromBytes(data[2 * U32 + n..][..U32])
    requires forall i :: 0 <= i < |v.bits| ==> v.bits[i] < Pow(256, U64)
    ensures Decodes(data, v, data[3 * U32 + n..])
  {
    NumberRoundTrip(data[..U32]);
    NumberRoundTrip(data[U32..][..U32]);
    NumberRoundTrip(data[2 * U32 + n..][..U32]);
    Reassociate(data, n);
  }

  /** Reads the parts of an encoded bitmap one after the other. */
  method ReadParts(data: seq<Byte>) returns (result: Result<(Vec, seq<Byte>)>)
    ensures result.Err? ==> Missing(data) == Some(result.error)
    ensures result.Ok? ==> Missing(data) == None && Decodes(data, result.value.0, result.value.1)
  {
    var numBits, afterBits, hasBits := ReadU32(data);
    if !hasBits { return Err(EofAmountOfBits); }
    var len, afterLen, hasLen := ReadU32(afterBits);
    if !hasLen { return Err(EofChunkLength); }
    if |afterLen| < len * U64 { return Err(EofBitData); }
    var words := ReadWords(afterLen[..len * U64], len);
    var afterWords := afterLen[len * U64..];
    var rlw, rest, hasRlw := ReadU32(afterWords);
    if !hasRlw { return Err(EofRunLengthWidth); }
    assert afterLen == data[2 * U32..] && afterWords == data[2 * U32 + len * U64..];
    Assembled(data, Vec(numBits, words, rlw), len * U64);
    return Ok((Vec(numBits, words, rlw), rest));
  }

  /** Decoding inverts encoding and returns what comes after it; it fails exactly on data that ends too early, and
      says what was missing. */
  method Decode(data: seq<Byte>) returns (result: Result<(Vec, seq<Byte>)>)
    ensures forall v, rest :: Decodes(data, v, rest) <==> result == Ok((v, rest))
    ensures result.Err? ==> Missing(data) == Some(result.error)
  {
    result := ReadParts(data);
    if result.Err? {
      TooShort(data);
    } else {
      forall v, rest | Decodes(data, v, rest) ensures result == Ok((v, rest)) {
        DecodesUnique(data, v, rest, result.value.0, result.value.1);
      }
    }
  }
}
