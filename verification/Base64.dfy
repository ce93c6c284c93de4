/** The standard base64 alphabet and padding (section 4 of RFC 4648), as the text stored for
    every file of an MSP directory. */
module Base64 {
  import opened Text

  type byte = x: int | 0 <= x < 256
  type sextet = x: int | 0 <= x < 64

  function Symbol(i: sextet): char {
    if i < 26 then 'A' + i as char
    else if i < 52 then 'a' + (i - 26) as char
    else if i < 62 then '0' + (i - 52) as char
    else if i == 62 then '+'
    else '/'
  }

  function Value(c: char): Option<sextet> {
    if 'A' <= c <= 'Z' then Some((c - 'A') as int)
    else if 'a' <= c <= 'z' then Some((c - 'a') as int + 26)
    else if '0' <= c <= '9' then Some((c - '0') as int + 52)
    else if c == '+' then Some(62)
    else if c == '/' then Some(63)
    else None
  }

  lemma SymbolValue(i: sextet)
    ensures Value(Symbol(i)) == Some(i) && Symbol(i) != '='
  {
  }

  lemma ValueSymbol(c: char)
    requires Value(c).Some?
    ensures Symbol(Value(c).value) == c && c != '='
  {
  }

  /** The 24 bits of three bytes, six at a time. */
  function First(x: byte): sextet { x / 4 }
  function Second(x: byte, y: byte): sextet { x % 4 * 16 + y / 16 }
  function Third(y: byte, z: byte): sextet { y % 16 * 4 + z / 64 }
  function Fourth(z: byte): sextet { z % 64 }

  /** And the other way round: the bytes of a group of two, three or four symbols. */
  function ByteOne(a: sextet, b: sextet): byte { a * 4 + b / 16 }
  function ByteTwo(b: sextet, c: sextet): byte { b % 16 * 16 + c / 4 }
  function ByteThree(c: sextet, d: sextet): byte { c % 4 * 64 + d }

  lemma FirstBack(x: byte, y: byte)
    ensures ByteOne(First(x), Second(x, y)) == x
  {
    assert Second(x, y) / 16 == x % 4;
    assert x / 4 * 4 + x % 4 == x;
  }

  lemma SecondBack(x: byte, y: byte, z: byte)
    ensures ByteTwo(Second(x, y), Third(y, z)) == y
  {
    assert Second(x, y) % 16 == y / 16;
    assert Third(y, z) / 4 == y % 16;
    assert y / 16 * 16 + y % 16 == y;
  }

  lemma ThirdBack(y: byte, z: byte)
    ensures ByteThree(Third(y, z), Fourth(z)) == z
  {
    assert Third(y, z) % 4 == z / 64;
    assert z / 64 * 64 + z % 64 == z;
  }

  lemma PaddedZero(x: byte, y: byte)
    ensures Second(x, 0) % 16 == 0 && Third(y, 0) % 4 == 0
  {
  }

  lemma BytesBack(x: byte, y: byte, z: byte)
    ensures ByteOne(First(x), Second(x, y)) == x
    ensures ByteTwo(Second(x, y), Third(y, z)) == y
    ensures ByteThree(Third(y, z), Fourth(z)) == z
    ensures Second(x, 0) % 16 == 0 && Third(y, 0) % 4 == 0
  {
    FirstBack(x, y);
    SecondBack(x, y, z);
    ThirdBack(y, z);
    PaddedZero(x, y);
  }

  lemma SextetsBack(a: sextet, b: sextet, c: sextet, d: sextet)
    ensures First(ByteOne(a, b)) == a && Fourth(ByteThree(c, d)) == d
    ensures Second(ByteOne(a, b), ByteTwo(b, c)) == b && Third(ByteTwo(b, c), ByteThree(c, d)) == c
    ensures b % 16 == 0 ==> Second(ByteOne(a, b), 0) == b
    ensures c % 4 == 0 ==> Third(ByteTwo(b, c), 0) == c
  {
  }

  function Group(x: byte, y: byte, z: byte): (r: string)
    ensures |r| == 4
  {
    [Symbol(First(x)), Symbol(Second(x, y)), Symbol(Third(y, z)), Symbol(Fourth(z))]
  }

  function TailOne(x: byte): (r: string)
    ensures |r| == 4
  {
    [Symbol(First(x)), Symbol(Second(x, 0)), '=', '=']
  }

  function TailTwo(x: byte, y: byte): (r: string)
    ensures |r| == 4
  {
    [Symbol(First(x)), Symbol(Second(x, y)), Symbol(Third(y, 0)), '=']
  }

  function Encode(data: seq<byte>): string {
    if |data| == 0 then ""
    else if |data| == 1 then TailOne(data[0])
    else if |data| == 2 then TailTwo(data[0], data[1])
    else Group(data[0], data[1], data[2]) + Encode(data[3..])
  }

  /** The strict reference decoder: padding only in the last group, unused bits zero. */
  function Decode(text: string): Option<seq<byte>> {
    if text == "" then Some([])
    else if |text| < 4 then None
    else
      match (Value(text[0]), Value(text[1]), Value(text[2]), Value(text[3]))
      case (Some(a), Some(b), Some(c), Some(d)) =>
        (match Decode(text[4..])
         case Some(rest) => Some([ByteOne(a, b), ByteTwo(b, c), ByteThree(c, d)] + rest)
         case None => None)
      case (Some(a), Some(b), Some(c), None) =>
        if |text| == 4 && text[3] == '=' && c % 4 == 0 then Some([ByteOne(a, b), ByteTwo(b, c)]) else None
      case (Some(a), Some(b), None, None) =>
        if |text| == 4 && text[2] == '=' && text[3] == '=' && b % 16 == 0 then Some([ByteOne(a, b)]) else None
      case _ => None
  }

  lemma DecodeGroup(x: byte, y: byte, z: byte, rest: string)
    ensures Decode(Group(x, y, z) + rest) == if Decode(rest).Some? then Some([x, y, z] + Decode(rest).value) else None
  {
    SymbolValue(First(x));
    SymbolValue(Second(x, y));
    SymbolValue(Third(y, z));
    SymbolValue(Fourth(z));
    BytesBack(x, y, z);
    assert (Group(x, y, z) + rest)[4..] == rest;
  }

  lemma DecodeOne(x: byte)
    ensures Decode(TailOne(x)) == Some([x])
  {
    var t, a, b := TailOne(x), First(x), Second(x, 0);
    SymbolValue(a);
    SymbolValue(b);
    assert b % 16 == 0 && ByteOne(a, b) == x;
    assert Value(t[0]) == Some(a);
    assert Value(t[1]) == Some(b);
    assert Value(t[2]).None?;
    assert Value(t[3]).None?;
    assert t[2] == '=' && t[3] == '=';
  }

  lemma DecodeTwo(x: byte, y: byte)
    ensures Decode(TailTwo(x, y)) == Some([x, y])
  {
    SymbolValue(First(x));
    SymbolValue(Second(x, y));
    SymbolValue(Third(y, 0));
    BytesBack(x, y, 0);
  }

  lemma FirstThree(data: seq<byte>)
    ensures |data| == 1 ==> data == [data[0]]
    ensures |data| == 2 ==> data == [data[0], data[1]]
    ensures |data| >= 3 ==> data == [data[0], data[1], data[2]] + data[3..]
  {
  }

  /** Decoding undoes encoding, for every byte sequence. */
  lemma {:induction false} RoundTrip(data: seq<byte>)
    ensures Decode(Encode(data)) == Some(data)
  {
    FirstThree(data);
    if |data| == 0 {
    } else if |data| == 1 {
      DecodeOne(data[0]);
    } else if |data| == 2 {
      DecodeTwo(data[0], data[1]);
    } else {
      RoundTrip(data[3..]);
      RoundTripGroup(data[0], data[1], data[2], data[3..]);
    }
  }

  lemma RoundTripGroup(x: byte, y: byte, z: byte, rest: seq<byte>)
    requires Decode(Encode(rest)) == Some(rest)
    ensures Decode(Group(x, y, z) + Encode(rest)) == Some([x, y, z] + rest)
  {
    DecodeGroup(x, y, z, Encode(rest));
  }

  lemma EncodeGroup(a: sextet, b: sextet, c: sextet, d: sextet, rest: seq<byte>)
    ensures Encode([ByteOne(a, b), ByteTwo(b, c), ByteThree(c, d)] + rest)
         == [Symbol(a), Symbol(b), Symbol(c), Symbol(d)] + Encode(rest)
  {
    SextetsBack(a, b, c, d);
    var bytes := [ByteOne(a, b), ByteTwo(b, c), ByteThree(c, d)];
    assert (bytes + rest)[3..] == rest;
    assert Group(bytes[0], bytes[1], bytes[2]) == [Symbol(a), Symbol(b), Symbol(c), Symbol(d)];
  }

  lemma EncodeOne(a: sextet, b: sextet)
    requires b % 16 == 0
    ensures Encode([ByteOne(a, b)]) == [Symbol(a), Symbol(b), '=', '=']
  {
    SextetsBack(a, b, 0, 0);
  }

  lemma EncodeTwo(a: sextet, b: sextet, c: sextet)
    requires c % 4 == 0
    ensures Encode([ByteOne(a, b), ByteTwo(b, c)]) == [Symbol(a), Symbol(b), Symbol(c), '=']
  {
    SextetsBack(a, b, c, 0);
  }

  lemma FirstFour(text: string)
    requires |text| >= 4
    ensures text == [text[0], text[1], text[2], text[3]] + text[4..]
    ensures |text| == 4 ==> text == [text[0], text[1], text[2], text[3]]
  {
  }

  lemma CanonicalOne(text: string)
    requires |text| >= 4 && Decode(text).Some? && Value(text[2]).None?
    ensures Encode(Decode(text).value) == text
  {
    ValueSymbol(text[0]);
    ValueSymbol(text[1]);
    var a, b := Value(text[0]).value, Value(text[1]).value;
    EncodeOne(a, b);
    FirstFour(text);
  }

  lemma CanonicalTwo(text: string)
    requires |text| >= 4 && Decode(text).Some? && Value(text[2]).Some? && Value(text[3]).None?
    ensures Encode(Decode(text).value) == text
  {
    ValueSymbol(text[0]);
    ValueSymbol(text[1]);
    ValueSymbol(text[2]);
    var a, b, c := Value(text[0]).value, Value(text[1]).value, Value(text[2]).value;
    EncodeTwo(a, b, c);
    FirstFour(text);
  }

  lemma CanonicalGroup(text: string)
    requires |text| >= 4 && Decode(text).Some? && Value(text[2]).Some? && Value(text[3]).Some?
    requires Decode(text[4..]).Some? && Encode(Decode(text[4..]).value) == text[4..]
    ensures Encode(Decode(text).value) == text
  {
    ValueSymbol(text[0]);
    ValueSymbol(text[1]);
    ValueSymbol(text[2]);
    ValueSymbol(text[3]);
    var a, b, c, d := Value(text[0]).value, Value(text[1]).value, Value(text[2]).value, Value(text[3]).value;
    EncodeGroup(a, b, c, d, Decode(text[4..]).value);
    FirstFour(text);
  }

  /** The decoder accepts nothing but encodings, so text and bytes determine each other. */
  lemma {:induction false} Canonical(text: string)
    requires Decode(text).Some?
    ensures Encode(Decode(text).value) == text
  {
    if text == "" {
    } else if Value(text[2]).None? {
      CanonicalOne(text);
    } else if Value(text[3]).None? {
      CanonicalTwo(text);
    } else {
      Canonical(text[4..]);
      CanonicalGroup(text);
    }
  }

  /** The number of padding characters. */
  function Padding(n: nat): nat {
    if n % 3 == 0 then 0 else 3 - n % 3
  }

  lemma Grouping(n: nat)
    requires n >= 3
    ensures Padding(n) == Padding(n - 3) && (n + 2) / 3 == 1 + (n - 3 + 2) / 3
  {
  }

  /** Four characters for every started group of three bytes. */
  lemma {:induction false} Length(data: seq<byte>)
    ensures |Encode(data)| == 4 * ((|data| + 2) / 3)
  {
    if |data| > 2 {
      Length(data[3..]);
      Grouping(|data|);
    }
  }

  const UPPER := "ABCDEFGHIJKLMNOPQRSTUVWXYZ"
  const LOWER := "abcdefghijklmnopqrstuvwxyz"
  const DIGITS := "0123456789"

  /** A byte of the data, or the zero the last group is filled up with. */
  function ByteAt(data: seq<byte>, i: nat): byte {
    if i < |data| then data[i] else 0
  }

  /** What a character stands for: its place in the alphabet, and zero for padding. */
  predicate StandsFor(c: char, i: sextet) {
    if c == '=' then i == 0
    else if i < 26 then c == UPPER[i]
    else if i < 52 then c == LOWER[i - 26]
    else if i < 62 then c == DIGITS[i - 52]
    else c == "+/"[i - 62]
  }

  lemma SymbolStands(i: sextet)
    ensures StandsFor(Symbol(i), i)
  {
  }

  lemma SameBits(x: byte, y: byte, z: byte)
    ensures ((First(x) * 64 + Second(x, y)) * 64 + Third(y, z)) * 64 + Fourth(z) == (x * 256 + y) * 256 + z
  {
  }

  /** The k-th three bytes as one number. */
  function Bits(data: seq<byte>, k: nat): nat {
    (ByteAt(data, 3 * k) * 256 + ByteAt(data, 3 * k + 1)) * 256 + ByteAt(data, 3 * k + 2)
  }

  /** The k-th four characters stand for that number, six bits each. */
  predicate Carries(text: string, k: nat, n: nat, a: sextet, b: sextet, c: sextet, d: sextet) {
    && 4 * k + 3 < |text|
    && StandsFor(text[4 * k], a)
    && StandsFor(text[4 * k + 1], b)
    && StandsFor(text[4 * k + 2], c)
    && StandsFor(text[4 * k + 3], d)
    && ((a * 64 + b) * 64 + c) * 64 + d == n
  }

  /** Every group of four characters has the 24 bits of its three bytes, in their order. */
  lemma {:induction false} GroupBits(data: seq<byte>, k: nat) returns (a: sextet, b: sextet, c: sextet, d: sextet)
    requires k < (|data| + 2) / 3
    ensures Carries(Encode(data), k, Bits(data, k), a, b, c, d)
  {
    if k > 0 {
      a, b, c, d := GroupBits(data[3..], k - 1);
      CarriesBehind(Group(data[0], data[1], data[2]), Encode(data[3..]), k, Bits(data, k), a, b, c, d);
    } else {
      a, b, c, d := FirstBits(data);
    }
  }

  lemma CarriesBehind(group: string, rest: string, k: nat, n: nat, a: sextet, b: sextet, c: sextet, d: sextet)
    requires |group| == 4 && k > 0 && Carries(rest, k - 1, n, a, b, c, d)
    ensures Carries(group + rest, k, n, a, b, c, d)
  {
  }

  lemma FirstBits(data: seq<byte>) returns (a: sextet, b: sextet, c: sextet, d: sextet)
    requires data != []
    ensures Carries(Encode(data), 0, Bits(data, 0), a, b, c, d)
  {
    var x, y, z := ByteAt(data, 0), ByteAt(data, 1), ByteAt(data, 2);
    a, b, c, d := First(x), Second(x, y), Third(y, z), Fourth(z);
    SameBits(x, y, z);
    FirstSymbols(data);
    ZeroBits(data);
    SymbolsStand(a, b, c, d);
  }

  lemma ZeroBits(data: seq<byte>)
    ensures |data| <= 2 ==> Fourth(ByteAt(data, 2)) == 0
    ensures |data| <= 1 ==> Third(ByteAt(data, 1), ByteAt(data, 2)) == 0
  {
  }

  lemma SymbolsStand(a: sextet, b: sextet, c: sextet, d: sextet)
    ensures StandsFor(Symbol(a), a) && StandsFor(Symbol(b), b) && StandsFor(Symbol(c), c) && StandsFor(Symbol(d), d)
  {
    SymbolStands(a);
    SymbolStands(b);
    SymbolStands(c);
    SymbolStands(d);
  }

  lemma FirstSymbols(data: seq<byte>)
    requires data != []
    ensures |Encode(data)| >= 4
    ensures Encode(data)[0] == Symbol(First(ByteAt(data, 0)))
    ensures Encode(data)[1] == Symbol(Second(ByteAt(data, 0), ByteAt(data, 1)))
    ensures Encode(data)[2] == if |data| < 2 then '=' else Symbol(Third(ByteAt(data, 1), ByteAt(data, 2)))
    ensures Encode(data)[3] == if |data| < 3 then '=' else Symbol(Fourth(ByteAt(data, 2)))
  {
    if |data| > 2 {
      assert Encode(data)[..4] == Group(data[0], data[1], data[2]);
    }
  }

  /** The last group of a text, where its padding is. */
  lemma TailShape(x: byte, y: byte, i: nat)
    requires i < 4
    ensures if i < 2 then Value(TailOne(x)[i]).Some? else TailOne(x)[i] == '='
    ensures if i < 3 then Value(TailTwo(x, y)[i]).Some? else TailTwo(x, y)[i] == '='
  {
    SymbolValue(First(x));
    SymbolValue(Second(x, 0));
    SymbolValue(Second(x, y));
    SymbolValue(Third(y, 0));
  }

  lemma GroupShape(x: byte, y: byte, z: byte, i: nat)
    requires i < 4
    ensures Value(Group(x, y, z)[i]).Some?
  {
    SymbolValue(First(x));
    SymbolValue(Second(x, y));
    SymbolValue(Third(y, z));
    SymbolValue(Fourth(z));
  }

  /** Every character is an alphabet character, but for at most two '=' at the very end. */
  lemma {:induction false} Shape(data: seq<byte>, i: nat)
    requires i < |Encode(data)|
    ensures if i + Padding(|data|) < |Encode(data)| then Value(Encode(data)[i]).Some? else Encode(data)[i] == '='
  {
    if |data| == 1 {
      TailShape(data[0], 0, i);
    } else if |data| == 2 {
      TailShape(data[0], data[1], i);
    } else {
      Grouping(|data|);
      Length(data[3..]);
      if i >= 4 {
        Shape(data[3..], i - 4);
      } else {
        GroupShape(data[0], data[1], data[2], i);
      }
    }
  }
}
