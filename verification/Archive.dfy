/** The portable binary archive: integers as a signed size byte and as few
    magnitude bytes as possible, in an order chosen by the archive flags. */
module Archive {
  import opened Basics

  type Byte = b: int | 0 <= b < 256

  const WORD := 8                                   // bytes of an intmax_t
  const INT64_MIN := -0x8000_0000_0000_0000
  const INT64_MAX := 0x7FFF_FFFF_FFFF_FFFF

  type IntMax = l: int | INT64_MIN <= l <= INT64_MAX

  /** The two endianness flags of an archive. */
  datatype Flags = Flags(big: bool, little: bool)

  // ------------------------------------------------------ byte strings

  /** The `n` low bytes of `v`, least significant first. */
  function LowBytes(v: nat, n: nat): (r: seq<Byte>)
    ensures |r| == n
    decreases n
  {
    if n == 0 then [] else [v % 256] + LowBytes(v / 256, n - 1)
  }

  function ValueOf(bytes: seq<Byte>): nat {
    if bytes == [] then 0 else bytes[0] + 256 * ValueOf(bytes[1..])
  }

  lemma {:induction false} ValueOfLowBytes(v: nat, n: nat)
    requires v < Pow(256, n)
    ensures ValueOf(LowBytes(v, n)) == v
    decreases n
  {
    if n > 0 {
      assert v / 256 < Pow(256, n - 1);
      ValueOfLowBytes(v / 256, n - 1);
      assert LowBytes(v, n)[1..] == LowBytes(v / 256, n - 1);
    }
  }

  lemma {:induction false} LowBytesPrefix(v: nat, m: nat, n: nat)
    requires m <= n
    ensures LowBytes(v, n)[..m] == LowBytes(v, m)
    decreases m
  {
    if m > 0 {
      LowBytesPrefix(v / 256, m - 1, n - 1);
      assert LowBytes(v, n)[..m] == [v % 256] + LowBytes(v / 256, n - 1)[..m - 1];
    }
  }

  function Reversed<T>(s: seq<T>): (r: seq<T>)
    ensures |r| == |s|
    ensures forall k :: 0 <= k < |s| ==> r[k] == s[|s| - 1 - k]
  {
    seq(|s|, k requires 0 <= k < |s| => s[|s| - 1 - k])
  }

  /** Reversing twice gives the bytes back. */
  lemma ReverseTwice<T>(s: seq<T>)
    ensures Reversed(Reversed(s)) == s
  {
  }

  /** The whole memory with one stretch reversed. */
  function StretchReversed(s: seq<Byte>, lo: nat, size: nat): (r: seq<Byte>)
    requires lo + size <= |s|
    ensures |r| == |s|
    ensures r[lo..lo + size] == Reversed(s[lo..lo + size])
    ensures forall k :: 0 <= k < |s| && !(lo <= k < lo + size) ==> r[k] == s[k]
  {
    s[..lo] + Reversed(s[lo..lo + size]) + s[lo + size..]
  }

  lemma StretchAt(s: seq<Byte>, lo: nat, size: nat, k: nat)
    requires lo + size <= |s| && k < |s|
    ensures StretchReversed(s, lo, size)[k] == if lo <= k < lo + size then s[2 * lo + size - 1 - k] else s[k]
  {
    if lo <= k < lo + size {
      var part := s[lo..lo + size];
      assert StretchReversed(s, lo, size)[lo..lo + size][k - lo] == Reversed(part)[k - lo] == part[size - 1 - (k - lo)];
    }
  }

  /** `reverse_bytes`: two pointers moving towards each other. */
  method ReverseBytes(a: array<Byte>, lo: nat, size: nat)
    requires lo + size <= a.Length
    modifies a
    ensures a[..] == StretchReversed(old(a[..]), lo, size)
  {
    hide StretchReversed;
    ghost var goal := StretchReversed(a[..], lo, size);
    ghost var start := a[..];
    forall k | 0 <= k < a.Length
      ensures goal[k] == if lo <= k < lo + size then start[2 * lo + size - 1 - k] else start[k]
    {
      StretchAt(start, lo, size, k);
    }
    var first, last := lo, lo + size - 1;
    while first < last
      invariant lo <= first <= last + 2 && last == lo + size - 1 - (first - lo)
      invariant forall k :: 0 <= k < a.Length ==> a[k] == if first <= k <= last then start[k] else goal[k]
    {
      assert goal[first] == start[last] && goal[last] == start[first];
      a[first], a[last] := a[last], a[first];
      first, last := first + 1, last - 1;
    }
  }

  // ---------------------------------------------------- how many bytes

  /** The bytes `v` needs, at least one: the shift loop of `save_impl`. */
  function ByteCount(v: nat): (n: nat)
    ensures n >= 1
  {
    if v / 256 == 0 then 1 else 1 + ByteCount(v / 256)
  }

  /** That is the fewest bytes that can hold the value. */
  lemma {:induction false} ByteCountIsFewest(v: nat)
    ensures v < Pow(256, ByteCount(v))
    ensures v > 0 ==> v >= Pow(256, ByteCount(v) - 1)
  {
    if v / 256 != 0 {
      ByteCountIsFewest(v / 256);
      var n := ByteCount(v / 256);
      assert Pow(256, n) == 256 * Pow(256, n - 1);
      assert v / 256 + 1 <= Pow(256, n);
      assert v < 256 * (v / 256 + 1);
    } else {
      assert Pow(256, 0) == 1 && Pow(256, 1) == 256 * Pow(256, 0);
    }
  }

  lemma {:induction false} ByteCountMonotone(v: nat, w: nat)
    requires v <= w
    ensures ByteCount(v) <= ByteCount(w)
    decreases w
  {
    if v / 256 != 0 {
      ByteCountMonotone(v / 256, w / 256);
    }
  }

  /** A magnitude below 2^63 needs at most eight bytes. */
  lemma ByteCountOfWord(v: nat)
    requires v <= INT64_MAX
    ensures ByteCount(v) <= WORD
  {
    ByteCountMonotone(v, INT64_MAX);
    assert ByteCount(0x7F) == 1;
    assert ByteCount(0x7FFF) == 2;
    assert ByteCount(0x7F_FFFF) == 3;
    assert ByteCount(0x7FFF_FFFF) == 4;
    assert ByteCount(0x7F_FFFF_FFFF) == 5;
    assert ByteCount(0x7FFF_FFFF_FFFF) == 6;
    assert ByteCount(0x7F_FFFF_FFFF_FFFF) == 7;
    assert ByteCount(0x7FFF_FFFF_FFFF_FFFF) == 8;
  }

  /** An arithmetic shift right by one byte, `k` times. */
  function ShiftedRight(v: int, k: nat): int {
    if k == 0 then v else ShiftedRight(v, k - 1) / 256
  }

  /** `-l` in 64-bit two's complement: the smallest value stays negative. */
  function Negated(l: IntMax): IntMax {
    if l == INT64_MIN then INT64_MIN else -l
  }

  function Magnitude(l: IntMax): IntMax {
    if l < 0 then Negated(l) else l
  }

  lemma {:induction false} NegativeNeverShiftsOut(v: int, k: nat)
    requires v < 0
    ensures ShiftedRight(v, k) < 0
  {
    if k > 0 {
      NegativeNeverShiftsOut(v, k - 1);
    }
  }

  lemma {:induction false} ShiftsOut(v: nat, k: nat)
    requires v < Pow(256, k)
    ensures ShiftedRight(v, k) == 0
    decreases k
  {
    if k > 0 {
      ShiftFirst(v, k - 1);
      assert v / 256 < Pow(256, k - 1);
      ShiftsOut(v / 256, k - 1);
    }
  }

  lemma {:induction false} ShiftFirst(v: int, k: nat)
    ensures ShiftedRight(v, k + 1) == ShiftedRight(v / 256, k)
  {
    if k > 0 {
      ShiftFirst(v, k - 1);
    }
  }

  /** The shift loop of `save_impl` reaches zero for every 64-bit integer but the
      smallest, whose negation is negative. */
  lemma SaveTerminatesIff(l: IntMax)
    ensures (exists k: nat :: ShiftedRight(Magnitude(l), k) == 0) <==> l != INT64_MIN
  {
    if l == INT64_MIN {
      forall k: nat
        ensures ShiftedRight(Magnitude(l), k) < 0
      {
        NegativeNeverShiftsOut(Magnitude(l), k);
      }
    } else {
      var v := Magnitude(l);
      ByteCountIsFewest(v);
      ShiftsOut(v, ByteCount(v));
    }
  }

  // ------------------------------------------------------------ format

  /** Whether the magnitude is written most significant byte first. */
  predicate BigEndian(flags: Flags, bigHost: bool) {
    if bigHost then !flags.little else flags.big
  }

  function InOrder(bytes: seq<Byte>, big: bool): (r: seq<Byte>)
    ensures |r| == |bytes|
  {
    if big then Reversed(bytes) else bytes
  }

  /** The size byte: the number of magnitude bytes, negated for a negative value. */
  function SizeByte(l: IntMax): Byte
    requires l != INT64_MIN && l != 0
  {
    ByteCountOfWord(Magnitude(l));
    var n := ByteCount(Magnitude(l));
    if l < 0 then 256 - n else n
  }

  function Encode(l: IntMax, big: bool): seq<Byte>
    requires l != INT64_MIN
  {
    if l == 0 then [0]
    else
      var v := Magnitude(l);
      [SizeByte(l)] + InOrder(LowBytes(v, ByteCount(v)), big)
  }

  datatype LoadResult = Loaded(value: IntMax, rest: seq<Byte>) | TooWide | EndOfStream

  function SignedByte(b: Byte): int {
    if b < 128 then b else b - 256
  }

  /** The 64 bits `v` read as a signed word. */
  function SignedWord(v: nat): IntMax
    requires v < TWO64
  {
    if v <= INT64_MAX then v else v - TWO64
  }

  lemma {:induction false} ValueOfBound(bytes: seq<Byte>)
    ensures ValueOf(bytes) < Pow(256, |bytes|)
  {
    if bytes != [] {
      ValueOfBound(bytes[1..]);
    }
  }

  lemma PowersOf256()
    ensures Pow(256, 8) == TWO64
  {
    assert Pow(256, 2) == 0x1_0000;
    PowSum(256, 2, 2);
    PowSum(256, 4, 4);
  }

  lemma {:induction false} PowerGrows(m: nat, n: nat)
    requires m <= n
    ensures Pow(256, m) <= Pow(256, n)
  {
    if m < n {
      PowerGrows(m, n - 1);
    }
  }

  lemma WordBound(bytes: seq<Byte>)
    requires |bytes| <= WORD
    ensures ValueOf(bytes) < TWO64
  {
    ValueOfBound(bytes);
    PowerGrows(|bytes|, WORD);
    PowersOf256();
  }

  /** `load_impl` on the bytes that remain in a stream. */
  function Decode(data: seq<Byte>, maxsize: nat, big: bool): LoadResult
    requires maxsize <= WORD
  {
    if data == [] then EndOfStream
    else
      var s := SignedByte(data[0]);
      if s == 0 then Loaded(0, data[1..])
      else if s == -128 then EndOfStream         // -(-128) is -128 again in a char
      else
        var size := if s < 0 then -s else s;
        if size > maxsize then TooWide
        else if |data| - 1 < size then EndOfStream
        else
          var bytes := InOrder(data[1..1 + size], big);
          WordBound(bytes);
          var l := SignedWord(ValueOf(bytes));
          Loaded(if s < 0 then Negated(l) else l, data[1 + size..])
  }

  /** Loading what was saved gives the integer back and leaves the rest of the
      stream, unless it is too wide for the type it is loaded into. */
  lemma LoadAfterSave(l: IntMax, big: bool, rest: seq<Byte>, maxsize: nat)
    requires l != INT64_MIN && maxsize <= WORD
    ensures Decode(Encode(l, big) + rest, maxsize, big) ==
            if l != 0 && ByteCount(Magnitude(l)) > maxsize then TooWide else Loaded(l, rest)
  {
    hide LowBytes, ValueOf, ByteCount, InOrder;
    EncodeParts(l, big);
    if l != 0 {
      var v: nat := if l < 0 then -l else l;
      var n := ByteCount(v);
      var bytes := InOrder(LowBytes(v, n), big);
      var data := Encode(l, big) + rest;
      assert data == [SizeByte(l)] + bytes + rest;
      InOrderLength(LowBytes(v, n), big);
      if n <= maxsize {
        assert data[1..1 + n] == bytes && data[1 + n..] == rest;
        InOrderTwice(LowBytes(v, n), big);
        ByteCountIsFewest(v);
        ValueOfLowBytes(v, n);
      }
    }
  }

  lemma InOrderTwice(bytes: seq<Byte>, big: bool)
    ensures InOrder(InOrder(bytes, big), big) == bytes
  {
    ReverseTwice(bytes);
  }

  // ------------------------------------------------------------- lists

  function EncodeAll(ls: seq<IntMax>, big: bool): seq<Byte>
    requires INT64_MIN !in ls
  {
    if ls == [] then [] else Encode(ls[0], big) + EncodeAll(ls[1..], big)
  }

  /** Loads `n` integers one after the other. */
  function DecodeAll(data: seq<Byte>, n: nat, big: bool): Option<(seq<IntMax>, seq<Byte>)> {
    if n == 0 then Some(([], data))
    else match Decode(data, WORD, big)
      case Loaded(l, rest) =>
        (match DecodeAll(rest, n - 1, big)
         case Some((ls, end)) => Some(([l] + ls, end))
         case None => None)
      case TooWide => None
      case EndOfStream => None
  }

  lemma DecodeOneMore(data: seq<Byte>, l: IntMax, tail: seq<Byte>, ls: seq<IntMax>, rest: seq<Byte>, big: bool)
    requires Decode(data, WORD, big) == Loaded(l, tail) && DecodeAll(tail, |ls|, big) == Some((ls, rest))
    ensures DecodeAll(data, |ls| + 1, big) == Some(([l] + ls, rest))
  {
    hide Decode;
  }

  lemma EncodeFirst(ls: seq<IntMax>, big: bool, rest: seq<Byte>)
    requires INT64_MIN !in ls && ls != []
    ensures EncodeAll(ls, big) + rest == Encode(ls[0], big) + (EncodeAll(ls[1..], big) + rest)
  {
    hide Encode;
  }

  lemma FullWidthLoads(l: IntMax, big: bool, rest: seq<Byte>)
    requires l != INT64_MIN
    ensures Decode(Encode(l, big) + rest, WORD, big) == Loaded(l, rest)
  {
    hide Encode, Decode, ByteCount;
    LoadAfterSave(l, big, rest, WORD);
    ByteCountOfWord(Magnitude(l));
  }

  lemma NothingToDecode(big: bool, rest: seq<Byte>)
    ensures DecodeAll(EncodeAll([], big) + rest, 0, big) == Some(([], rest))
  {
    assert EncodeAll([], big) == [] && [] + rest == rest;
  }

  /** A list saved into a stream is loaded back, whatever follows it. */
  lemma {:induction false} LoadAllAfterSaveAll(ls: seq<IntMax>, big: bool, rest: seq<Byte>)
    requires INT64_MIN !in ls
    ensures DecodeAll(EncodeAll(ls, big) + rest, |ls|, big) == Some((ls, rest))
  {
    hide Encode, EncodeAll, Decode, DecodeAll;
    if ls == [] {
      NothingToDecode(big, rest);
    } else {
      var tail := EncodeAll(ls[1..], big) + rest;
      EncodeFirst(ls, big, rest);
      FullWidthLoads(ls[0], big, tail);
      LoadAllAfterSaveAll(ls[1..], big, rest);
      DecodeOneMore(Encode(ls[0], big) + tail, ls[0], tail, ls[1..], rest, big);
      assert [ls[0]] + ls[1..] == ls;
    }
  }

  /** The format itself: a size byte with the number of magnitude bytes, as few as
      can hold the magnitude, negated for a negative value, and these bytes most
      or least significant first. */
  lemma EncodedForm(l: IntMax, big: bool)
    requires l != INT64_MIN
    ensures l == 0 ==> Encode(l, big) == [0]
    ensures l != 0 ==>
      var e, v: nat := Encode(l, big), if l < 0 then -l else l;
      var n := |e| - 1;
      && n >= 1 && Pow(256, n - 1) <= v < Pow(256, n)
      && e[0] as int == (if l < 0 then 256 - n else n)
      && ValueOf(if big then Reversed(e[1..]) else e[1..]) == v
  {
    hide LowBytes, ValueOf, ByteCount, Pow;
    EncodeParts(l, big);
    if l != 0 {
      var v: nat := if l < 0 then -l else l;
      var n := ByteCount(v);
      ByteCountIsFewest(v);
      ByteCountOfWord(v);
      assert Encode(l, big)[1..] == InOrder(LowBytes(v, n), big);
      InOrderTwice(LowBytes(v, n), big);
      ValueOfLowBytes(v, n);
    }
  }

  /** Too few bytes after the size byte. */
  lemma TooShort(data: seq<Byte>, maxsize: nat, big: bool)
    requires maxsize <= WORD && data != []
    requires var s := SignedByte(data[0]); s != 0 && |data| - 1 < if s < 0 then -s else s
    ensures !Decode(data, maxsize, big).Loaded?
  {
    hide ValueOf, InOrder;
  }

  /** A stream that ends inside an integer never loads one. */
  lemma TruncatedNeverLoads(l: IntMax, big: bool, maxsize: nat, m: nat)
    requires l != INT64_MIN && maxsize <= WORD && m < |Encode(l, big)|
    ensures !Decode(Encode(l, big)[..m], maxsize, big).Loaded?
  {
    hide LowBytes, ValueOf, ByteCount, InOrder, Encode;
    EncodeParts(l, big);
    if m > 0 {
      var v: nat := if l < 0 then -l else l;
      InOrderLength(LowBytes(v, ByteCount(v)), big);
      hide Decode;
      TooShort(Encode(l, big)[..m], maxsize, big);
    }
  }

  /** Most significant byte first under the big flag, least under the little one,
      as the host does without a flag.  So the bytes are the same on every host
      exactly when one endianness flag, and only one, is set. */
  lemma HostIndependentIff(flags: Flags)
    ensures flags.big && !flags.little ==> forall host :: BigEndian(flags, host)
    ensures flags.little && !flags.big ==> forall host :: !BigEndian(flags, host)
    ensures !flags.little && !flags.big ==> forall host :: BigEndian(flags, host) == host
    ensures (forall l: IntMax :: l != INT64_MIN ==>
              Encode(l, BigEndian(flags, true)) == Encode(l, BigEndian(flags, false)))
            <==> flags.big != flags.little
  {
    if flags.big == flags.little {
      TwoByteValue();
      assert BigEndian(flags, true) != BigEndian(flags, false);
    } else {
      assert BigEndian(flags, true) == BigEndian(flags, false);
    }
  }

  /** 256 is written differently in the two byte orders. */
  lemma TwoByteValue()
    ensures Encode(256, true) != Encode(256, false)
  {
    assert ByteCount(256) == 1 + ByteCount(1);
    assert LowBytes(256, 2) == [0, 1] by {
      assert LowBytes(1, 1) == [1] + LowBytes(0, 0);
    }
    assert Encode(256, true)[1] == 1;
    assert Encode(256, false)[1] == 0;
  }

  // ------------------------------------------------------ the archives

  class OutStream {
    var data: seq<Byte>

    constructor ()
      ensures data == []
    {
      data := [];
    }

    method Write(bytes: seq<Byte>)
      modifies this
      ensures data == old(data) + bytes
    {
      data := data + bytes;
    }
  }

  /** The eight bytes of a word as the host stores them. */
  function HostImage(v: nat, bigHost: bool): (r: seq<Byte>)
    ensures |r| == WORD
  {
    InOrder(LowBytes(v, WORD), bigHost)
  }

  lemma ReversedEnd<T>(s: seq<T>, n: nat)
    requires n <= |s|
    ensures Reversed(s)[|s| - n..] == Reversed(s[..n])
  {
  }

  lemma HostSlice(v: nat, n: nat, bigHost: bool)
    requires n <= WORD
    ensures var image := HostImage(v, bigHost);
      (if bigHost then image[WORD - n..] else image[..n]) == InOrder(LowBytes(v, n), bigHost)
  {
    hide LowBytes;
    LowBytesPrefix(v, n, WORD);
    ReversedEnd(LowBytes(v, WORD), n);
  }

  /** The do-while loop that counts the bytes of a magnitude. */
  method CountBytes(v: nat) returns (size: nat)
    ensures size == ByteCount(v)
  {
    var ll: nat := v / 256;
    size := 1;
    while ll != 0
      invariant ByteCount(v) == if ll == 0 then size else size + ByteCount(ll)
      decreases ll
    {
      ll := ll / 256;
      size := size + 1;
    }
  }

  predicate MustReverse(flags: Flags, bigHost: bool) {
    (bigHost && flags.little) || (!bigHost && flags.big)
  }

  lemma ReverseSettles(bytes: seq<Byte>, flags: Flags, bigHost: bool)
    ensures InOrder(InOrder(bytes, bigHost), MustReverse(flags, bigHost)) == InOrder(bytes, BigEndian(flags, bigHost))
    ensures InOrder(InOrder(bytes, MustReverse(flags, bigHost)), bigHost) == InOrder(bytes, BigEndian(flags, bigHost))
  {
    ReverseTwice(bytes);
  }

  /** The magnitude bytes as they go into the stream: those of the word in host
      memory, reversed in place when archive and host disagree. */
  method MagnitudeBytes(v: nat, size: nat, flags: Flags, bigHost: bool) returns (bytes: seq<Byte>)
    requires size <= WORD
    ensures bytes == InOrder(LowBytes(v, size), BigEndian(flags, bigHost))
  {
    hide LowBytes, Reversed, StretchReversed;
    var image := HostImage(v, bigHost);
    var memory := new Byte[WORD](k requires 0 <= k < WORD => image[k]);
    assert memory[..] == image;
    HostSlice(v, size, bigHost);
    var cptr := if bigHost then WORD - size else 0;
    ghost var slice := memory[cptr..cptr + size];
    assert slice == InOrder(LowBytes(v, size), bigHost);
    if MustReverse(flags, bigHost) {
      ReverseBytes(memory, cptr, size);
      assert memory[..][cptr..cptr + size] == Reversed(slice);
    }
    ReverseSettles(LowBytes(v, size), flags, bigHost);
    bytes := memory[cptr..cptr + size];
  }

  lemma EncodeParts(l: IntMax, big: bool)
    requires l != INT64_MIN
    ensures l == 0 ==> Encode(l, big) == [0]
    ensures l != 0 ==>
      var v: nat := if l < 0 then -l else l;
      var n := ByteCount(v);
      && n <= WORD
      && Encode(l, big) == [if l < 0 then 256 - n else n] + InOrder(LowBytes(v, n), big)
  {
    if l != 0 {
      ByteCountOfWord(Magnitude(l));
    }
  }

  /** `save_impl`. */
  method Save(out: OutStream, l: IntMax, flags: Flags, bigHost: bool)
    requires l != INT64_MIN
    modifies out
    ensures out.data == old(out.data) + Encode(l, BigEndian(flags, bigHost))
  {
    hide LowBytes, ByteCount, InOrder, Encode, BigEndian;
    EncodeParts(l, BigEndian(flags, bigHost));
    if l == 0 {
      out.Write([0]);
      return;
    }
    var negative := l < 0;
    var ll: nat := if negative then -l else l;
    var size := CountBytes(ll);
    out.Write([if negative then 256 - size else size]);
    ll := if negative then -l else l;
    var bytes := MagnitudeBytes(ll, size, flags, bigHost);
    out.Write(bytes);
  }

  class InStream {
    var data: seq<Byte>     // what remains to be read

    constructor (bytes: seq<Byte>)
      ensures data == bytes
    {
      data := bytes;
    }
  }

  datatype LoadOutcome = Value(value: IntMax) | Refused | Broken

  lemma {:induction false} TrailingZeroes(bytes: seq<Byte>, n: nat)
    ensures ValueOf(bytes + Nulls(n)) == ValueOf(bytes)
  {
    if bytes != [] {
      assert (bytes + Nulls(n))[1..] == bytes[1..] + Nulls(n);
      TrailingZeroes(bytes[1..], n);
    } else {
      assert bytes + Nulls(n) == Nulls(n);
      NullsValue(n);
    }
  }

  function Nulls(n: nat): (r: seq<Byte>)
    ensures |r| == n && forall k :: 0 <= k < n ==> r[k] == 0
  {
    seq(n, _ => 0)
  }

  lemma {:induction false} NullsValue(n: nat)
    ensures ValueOf(Nulls(n)) == 0
  {
    if n > 0 {
      assert Nulls(n)[1..] == Nulls(n - 1);
      NullsValue(n - 1);
    }
  }

  /** A word that is zero outside its low bytes has the value of those bytes. */
  lemma WordIsBytes(memory: seq<Byte>, cptr: nat, size: nat, bigHost: bool)
    requires |memory| == WORD && size <= WORD && cptr == if bigHost then WORD - size else 0
    requires forall k :: 0 <= k < WORD && !(cptr <= k < cptr + size) ==> memory[k] == 0
    ensures ValueOf(InOrder(memory, bigHost)) == ValueOf(InOrder(memory[cptr..cptr + size], bigHost))
  {
    hide ValueOf, InOrder;
    var part := memory[cptr..cptr + size];
    var rest := Nulls(WORD - size);
    TrailingZeroes(InOrder(part, bigHost), WORD - size);
    if bigHost {
      assert memory == rest + part;
      ReversedConcat(rest, part);
      NullsReversed(WORD - size);
    } else {
      assert memory == part + rest;
    }
    assert InOrder(memory, bigHost) == InOrder(part, bigHost) + rest by { InOrderIs(memory, part, rest, bigHost); }
  }

  lemma ReversedConcat<T>(a: seq<T>, b: seq<T>)
    ensures Reversed(a + b) == Reversed(b) + Reversed(a)
  {
  }

  lemma NullsReversed(n: nat)
    ensures Reversed(Nulls(n)) == Nulls(n)
  {
  }

  lemma InOrderIs(memory: seq<Byte>, part: seq<Byte>, rest: seq<Byte>, big: bool)
    requires big ==> Reversed(memory) == Reversed(part) + rest
    requires !big ==> memory == part + rest
    ensures InOrder(memory, big) == InOrder(part, big) + rest
  {
  }

  /** The word in host memory once the bytes of the stream are in it. */
  method WordFrom(bytes: seq<Byte>, flags: Flags, bigHost: bool) returns (v: nat)
    requires |bytes| <= WORD
    ensures v == ValueOf(InOrder(bytes, BigEndian(flags, bigHost)))
  {
    hide ValueOf, Reversed, StretchReversed;
    var size := |bytes|;
    var cptr := if bigHost then WORD - size else 0;
    var memory := new Byte[WORD](k => if cptr <= k < cptr + size then bytes[k - cptr] else 0);
    assert memory[cptr..cptr + size] == bytes;
    if MustReverse(flags, bigHost) {
      ReverseBytes(memory, cptr, size);
      assert memory[..][cptr..cptr + size] == Reversed(bytes);
    }
    WordIsBytes(memory[..], cptr, size, bigHost);
    assert memory[..][cptr..cptr + size] == memory[cptr..cptr + size];
    ReverseSettles(bytes, flags, bigHost);
    v := ValueOf(InOrder(memory[..], bigHost));
  }

  /** `load_impl`: reads the bytes into the word, reverses them in place when the
      archive and the host disagree, and negates. */
  method Load(inp: InStream, maxsize: nat, flags: Flags, bigHost: bool) returns (r: LoadOutcome)
    requires maxsize <= WORD
    modifies inp
    ensures match Decode(old(inp.data), maxsize, BigEndian(flags, bigHost))
      case Loaded(l, rest) => r == Value(l) && inp.data == rest
      case TooWide => r == Refused
      case EndOfStream => r == Broken
  {
    hide ValueOf, InOrder, BigEndian;
    if inp.data == [] {
      return Broken;
    }
    ghost var start := inp.data;
    var size := SignedByte(inp.data[0]);
    inp.data := inp.data[1..];
    if size == 0 {
      return Value(0);
    }
    var negative := size < 0;
    if negative {
      size := Wrap8Signed(-size);
    }
    if size > maxsize {
      return Refused;
    }
    if size < 0 || |inp.data| < size {
      return Broken;
    }
    var bytes := inp.data[..size];
    assert bytes == start[1..1 + size];
    inp.data := inp.data[size..];
    var v := WordFrom(bytes, flags, bigHost);
    WordBound(InOrder(bytes, BigEndian(flags, bigHost))) by { InOrderLength(bytes, BigEndian(flags, bigHost)); }
    var l := SignedWord(v);
    return Value(if negative then Negated(l) else l);
  }

  lemma InOrderLength(bytes: seq<Byte>, big: bool)
    ensures |InOrder(bytes, big)| == |bytes|
  {
  }
}
