/** The shell's base64, RFC 4648 section 4: a three-byte chunk encoder against a bit-buffer decoder. */
module Base64 {
  type Byte = b: int | 0 <= b < 256

  datatype Result<T> = Ok(value: T) | Err(message: string)

  /** The numbers a 32-bit register holds. */
  const WORD: int := 0x1_0000_0000

  /** The value of a letter of the alphabet, -1 for any other character. */
  function ValueOf(c: char): (v: int)
    ensures -1 <= v < 64
  {
    if 'A' <= c <= 'Z' then c as int - 'A' as int
    else if 'a' <= c <= 'z' then c as int - 'a' as int + 26
    else if '0' <= c <= '9' then c as int - '0' as int + 52
    else if c == '+' then 62
    else if c == '/' then 63
    else -1
  }

  /** The alphabet's letter for a value: capitals, small letters, digits, plus and slash. */
  function Letter(v: nat): (c: char)
    requires v < 64
    ensures ValueOf(c) == v
  {
    if v < 26 then ('A' as int + v) as char
    else if v < 52 then ('a' as int + v - 26) as char
    else if v < 62 then ('0' as int + v - 52) as char
    else if v == 62 then '+'
    else '/'
  }

  function Shl(n: nat, k: nat): nat { if k == 0 then n else 2 * Shl(n, k - 1) }

  function Shr(n: nat, k: nat): nat { if k == 0 then n else Shr(n / 2, k - 1) }

  /** The lowest `k` bits. */
  function Low(n: nat, k: nat): nat { if k == 0 then 0 else 2 * Low(n / 2, k - 1) + n % 2 }

  /** The whole number written once these bytes follow those of `number`, most significant first. */
  function Written(number: nat, bytes: seq<Byte>): nat {
    if bytes == [] then number else Written(number, bytes[..|bytes| - 1]) * 256 + bytes[|bytes| - 1]
  }

  /**
   * The number spelt once the first `n` characters of `s` follow letters that
   * spell `number`, six bits each; -1 if one of them is not a letter.
   */
  function Spelling(number: int, s: string, n: nat): (r: int)
    requires n <= |s|
    ensures r >= -1
  {
    if n == 0 then if number < 0 then -1 else number
    else
      var (r, v) := (Spelling(number, s, n - 1), ValueOf(s[n - 1]));
      if r < 0 || v < 0 then -1 else r * 64 + v
  }

  /** Where the padding starts: the first '=', or the end. */
  function PadAt(s: string, from: nat := 0): (k: nat)
    requires from <= |s|
    ensures from <= k <= |s| && (forall i :: from <= i < k ==> s[i] != '=') && (k < |s| ==> s[k] == '=')
    decreases |s| - from
  {
    if from == |s| || s[from] == '=' then from else PadAt(s, from + 1)
  }

  /**
   * What decoding must give: an error exactly when a character outside the
   * alphabet stands before the padding; else the whole bytes of the bit string
   * that the letters before the padding spell, six bits each.
   */
  predicate Decodes(s: string, r: Result<seq<Byte>>) {
    var k := PadAt(s);
    var number := Spelling(0, s, k);
    if number < 0 then r.Err?
    else r.Ok? && |r.value| == 6 * k / 8 && Written(0, r.value) == Shr(number, 6 * k % 8)
  }

  /** One to three bytes as four characters. */
  function Group(chunk: seq<Byte>): string
    requires 1 <= |chunk| <= 3
  {
    var triple := Triple(chunk);
    [ Letter(triple / 0x40000 % 64),
      Letter(triple / 0x1000 % 64),
      if |chunk| > 1 then Letter(triple / 0x40 % 64) else '=',
      if |chunk| > 2 then Letter(triple % 64) else '=' ]
  }

  function Triple(chunk: seq<Byte>): (t: nat)
    requires 1 <= |chunk| <= 3
    ensures t < WORD
  {
    var b0: int := chunk[0];
    var b1: int := if |chunk| > 1 then chunk[1] else 0;
    var b2: int := if |chunk| > 2 then chunk[2] else 0;
    b0 * 0x10000 + b1 * 0x100 + b2
  }

  function Encoded(data: seq<Byte>): string {
    if data == [] then "" else if |data| <= 3 then Group(data) else Group(data[..3]) + Encoded(data[3..])
  }

  method Encode(data: seq<Byte>) returns (result: string)
    ensures result == Encoded(data)
  {
    result := "";
    var i := 0;
    while i < |data|
      invariant 0 <= i <= |data| && result + Encoded(data[i..]) == Encoded(data)
    {
      var next := if i + 3 < |data| then i + 3 else |data|;
      var chunk := data[i..next];
      var triple := Triple(chunk);
      ghost var before := result;
      result := result + [Letter(triple / 0x40000 % 64)];
      result := result + [Letter(triple / 0x1000 % 64)];
      result := result + [if |chunk| > 1 then Letter(triple / 0x40 % 64) else '='];
      result := result + [if |chunk| > 2 then Letter(triple % 64) else '='];
      FourPushes(before, Group(chunk));
      NextChunk(before, data, i, next);
      i := next;
    }
  }

  /**
   * `i` letters in, the bytes out and the bits held spell them. The buffer
   * never holds more than it says.
   */
  predicate Reached(s: string, i: nat, result: seq<Byte>, buf: nat, bits: nat) {
    && bits < 8 && buf < Shl(1, bits) && |result| * 8 + bits == 6 * i
    && i <= |s| && Spelling(0, s, i) == Spelt(Written(0, result), bits, buf)
  }

  /** What the decoder's loop does with one letter. */
  method Feed(ghost s: string, ghost i: nat, result: seq<Byte>, buf: nat, bits: nat, val: nat)
    returns (result': seq<Byte>, buf': nat, bits': nat)
    requires Reached(s, i, result, buf, bits) && i < |s| && val == ValueOf(s[i])
    ensures Reached(s, i + 1, result', buf', bits')
  {
    Shifted(buf, bits, val);
    SixMore(Written(0, result), bits, buf, val);
    result', buf', bits' := result, buf * 64 % WORD + val, bits + 6;
    if bits' >= 8 {
      bits' := bits' - 8;
      TopByte(Written(0, result), buf', bits');
      var byte := Shr(buf', bits') % 256;
      NextDigit(result, byte);
      result' := result' + [byte];
      buf' := Low(buf', bits');
    }
  }

  method Decode(s: string) returns (r: Result<seq<Byte>>)
    ensures Decodes(s, r)
  {
    var result: seq<Byte> := [];
    var buf, bits := 0, 0;
    var i := 0;
    while i < |s|
      invariant 0 <= i <= |s| && bits >= 0 && buf >= 0 && Reached(s, i, result, buf, bits)
    {
      var c := s[i];
      if c == '=' { break; }
      var val := ValueOf(c);
      if val < 0 {
        BadLetter(s, i);
        return Err("invalid base64 character");
      }
      result, buf, bits := Feed(s, i, result, buf, bits, val);
      i := i + 1;
    }
    WholeBytes(s, i, result, buf, bits);
    return Ok(result);
  }

  lemma FourPushes(before: string, group: string)
    requires |group| == 4
    ensures before + [group[0]] + [group[1]] + [group[2]] + [group[3]] == before + group
  {
  }

  lemma NextChunk(before: string, data: seq<Byte>, i: nat, next: nat)
    requires i < |data| && next == if i + 3 < |data| then i + 3 else |data|
    ensures before + Encoded(data[i..]) == before + Group(data[i..next]) + Encoded(data[next..])
  {
    if i + 3 < |data| {
      assert data[i..][..3] == data[i..next] && data[i..][3..] == data[next..];
    } else {
      assert data[i..next] == data[i..] && data[next..] == [];
    }
  }

  // -------------------------------------------------- the decoder's bit buffer

  /** The number that these bytes and these bits after them spell. */
  function Spelt(number: nat, bits: nat, buf: nat): nat { Shl(number, bits) + buf }

  lemma TwoUp(n: nat, k: nat)
    ensures Shl(n, k + 2) == 4 * Shl(n, k)
  {
  }

  lemma SixUp(n: nat, k: nat)
    ensures Shl(n, k + 6) == 64 * Shl(n, k)
  {
    TwoUp(n, k);
    TwoUp(n, k + 2);
    TwoUp(n, k + 4);
  }

  lemma EightUp(n: nat, k: nat)
    ensures Shl(n, k + 8) == 256 * Shl(n, k)
  {
    SixUp(n, k);
    TwoUp(n, k + 6);
  }

  lemma {:induction false} ShiftedSum(a: nat, b: nat, k: nat)
    ensures Shl(256 * a + b, k) == 256 * Shl(a, k) + Shl(b, k)
  {
    if k > 0 { ShiftedSum(a, b, k - 1); }
  }

  lemma {:induction false} HighAndLow(n: nat, k: nat)
    ensures Spelt(Shr(n, k), k, Low(n, k)) == n && Low(n, k) < Shl(1, k)
  {
    if k > 0 { HighAndLow(n / 2, k - 1); }
  }

  lemma {:induction false} ShiftedBack(q: nat, k: nat, r: nat)
    requires r < Shl(1, k)
    ensures Shr(Spelt(q, k, r), k) == q
  {
    if k > 0 {
      ShiftedBack(q, k - 1, r / 2);
      assert Spelt(q, k, r) / 2 == Spelt(q, k - 1, r / 2);
    }
  }

  lemma {:induction false} OneByte(n: nat, k: nat)
    requires n < 256 * Shl(1, k)
    ensures Shr(n, k) < 256
  {
    if k > 0 { OneByte(n / 2, k - 1); }
  }

  /** The buffer always fits the register, so a shift by six loses nothing. */
  lemma Shifted(buf: nat, bits: nat, val: nat)
    requires bits < 8 && buf < Shl(1, bits) && val < 64
    ensures buf * 64 % WORD + val == buf * 64 + val < Shl(1, bits + 6)
  {
    SixUp(1, bits);
    assert Shl(1, bits) <= 128 by { ShortShift(bits); }
  }

  lemma {:induction false} ShortShift(bits: nat)
    requires bits < 8
    ensures Shl(1, bits) <= 128
    decreases 8 - bits
  {
    if bits < 7 { ShortShift(bits + 1); } else { SixUp(1, 1); }
  }

  lemma SixMore(number: nat, bits: nat, buf: nat, val: nat)
    ensures Spelt(number, bits + 6, buf * 64 + val) == Spelt(number, bits, buf) * 64 + val
  {
    SixUp(number, bits);
  }

  /** Taking the top byte off a buffer of eight bits and more keeps the number the two spell. */
  lemma TopByte(number: nat, buf: nat, bits: nat)
    requires buf < Shl(1, bits + 8)
    ensures Low(buf, bits) < Shl(1, bits)
    ensures Spelt(number * 256 + Shr(buf, bits) % 256, bits, Low(buf, bits)) == Spelt(number, bits + 8, buf)
  {
    EightUp(1, bits);
    EightUp(number, bits);
    OneByte(buf, bits);
    HighAndLow(buf, bits);
    ShiftedSum(number, Shr(buf, bits), bits);
  }

  lemma NextDigit(digits: seq<Byte>, d: Byte)
    ensures Written(0, digits + [d]) == Written(0, digits) * 256 + d
  {
    assert (digits + [d])[..|digits|] == digits;
  }

  /** A character that is no letter, '=' among them, cannot be spelt past. */
  lemma {:induction false} NotPast(number: int, s: string, i: nat, k: nat)
    requires i < k <= |s| && ValueOf(s[i]) < 0
    ensures Spelling(number, s, k) < 0
  {
    if k > i + 1 { NotPast(number, s, i, k - 1); }
  }

  lemma PadIs(s: string, i: nat)
    requires i <= |s| && Spelling(0, s, i) >= 0 && (i < |s| ==> s[i] == '=')
    ensures PadAt(s) == i
  {
    if PadAt(s) < i { NotPast(0, s, PadAt(s), i); }
  }

  lemma BadLetter(s: string, i: nat)
    requires i < |s| && Spelling(0, s, i) >= 0 && s[i] != '=' && ValueOf(s[i]) < 0
    ensures Spelling(0, s, PadAt(s)) < 0
  {
    if PadAt(s) < i { NotPast(0, s, PadAt(s), i); } else { NotPast(0, s, i, PadAt(s)); }
  }

  lemma WholeBytes(s: string, i: nat, result: seq<Byte>, buf: nat, bits: nat)
    requires Reached(s, i, result, buf, bits) && (i < |s| ==> s[i] == '=')
    ensures Decodes(s, Ok(result))
  {
    PadIs(s, i);
    ShiftedBack(Written(0, result), bits, buf);
    EightAtATime(|result|, bits, 6 * i);
  }

  lemma EightAtATime(bytes: nat, bits: nat, all: nat)
    requires bits < 8 && bytes * 8 + bits == all
    ensures all / 8 == bytes && all % 8 == bits
  {
  }

  // ------------------------------------------------------------ the round trip

  /** The four six-bit digits of a chunk. */
  lemma SixBits(t: nat)
    requires t < 0x100_0000
    ensures ((t / 0x40000 % 64 * 64 + t / 0x1000 % 64) * 64 + t / 0x40 % 64) * 64 + t % 64 == t
  {
    assert t / 0x1000 == t / 64 / 64 && t / 0x40000 == t / 64 / 64 / 64;
  }

  lemma GroupLetters(chunk: seq<Byte>)
    requires 1 <= |chunk| <= 3
    ensures var (g, t) := (Group(chunk), Triple(chunk));
      && ValueOf(g[0]) == t / 0x40000 % 64 && ValueOf(g[1]) == t / 0x1000 % 64
      && (if |chunk| > 1 then ValueOf(g[2]) == t / 0x40 % 64 else g[2] == '=')
      && (if |chunk| > 2 then ValueOf(g[3]) == t % 64 else g[3] == '=')
  {
  }

  lemma GroupSpells(number: nat, chunk: seq<Byte>)
    requires 1 <= |chunk| <= 3
    ensures Spelling(number, Group(chunk), |chunk| + 1) == Shl(Written(number, chunk), SpareBits(|chunk|))
  {
    GroupLetters(chunk);
    SixBits(Triple(chunk));
    UpToFour(number, Group(chunk));
    UpToThree(number, chunk);
    TwoUp(Written(number, chunk), 0);
    TwoUp(Written(number, chunk), 2);
  }

  lemma UpToFour(number: nat, g: string)
    requires |g| == 4 && ValueOf(g[0]) >= 0 && ValueOf(g[1]) >= 0
    ensures Spelling(number, g, 2) == number * 0x1000 + ValueOf(g[0]) * 64 + ValueOf(g[1])
    ensures ValueOf(g[2]) >= 0 ==> Spelling(number, g, 3) == Spelling(number, g, 2) * 64 + ValueOf(g[2])
    ensures ValueOf(g[2]) >= 0 && ValueOf(g[3]) >= 0
      ==> Spelling(number, g, 4) == Spelling(number, g, 3) * 64 + ValueOf(g[3])
  {
    assert Spelling(number, g, 1) == number * 64 + ValueOf(g[0]);
  }

  lemma UpToThree(number: nat, chunk: seq<Byte>)
    requires 1 <= |chunk| <= 3
    ensures Written(number, chunk) == var one := number * 256 + chunk[0];
      if |chunk| == 1 then one
      else if |chunk| == 2 then one * 256 + chunk[1]
      else (one * 256 + chunk[1]) * 256 + chunk[2]
  {
    var n := |chunk|;
    assert n > 1 ==> chunk[..n - 1][..n - 2] == chunk[..n - 2];
    assert n > 2 ==> chunk[..n - 2][..n - 3] == chunk[..n - 3];
  }

  lemma {:induction false} SpellingOn(number: int, s: string, g: string, n: nat)
    requires n <= |g|
    ensures Spelling(number, s + g, |s| + n) == Spelling(Spelling(number, s, |s|), g, n)
  {
    if n == 0 { SpellingOfPart(number, s, g, |s|); } else { SpellingOn(number, s, g, n - 1); }
  }

  lemma {:induction false} SpellingOfPart(number: int, s: string, g: string, n: nat)
    requires n <= |s|
    ensures Spelling(number, s + g, n) == Spelling(number, s, n)
  {
    if n > 0 { SpellingOfPart(number, s, g, n - 1); }
  }

  lemma {:induction false} WrittenOn(number: nat, a: seq<Byte>, b: seq<Byte>)
    ensures Written(number, a + b) == Written(Written(number, a), b)
  {
    if b == [] {
      assert a + b == a;
    } else {
      assert (a + b)[..|a + b| - 1] == a + b[..|b| - 1];
      WrittenOn(number, a, b[..|b| - 1]);
    }
  }

  /** The letters in an encoding of so many bytes, and the zero bits they end in. */
  function Letters(n: nat): nat { if n == 0 then 0 else if n <= 3 then n + 1 else 4 + Letters(n - 3) }

  function SpareBits(n: nat): nat { if n == 1 then 4 else if n == 2 then 2 else if n <= 3 then 0 else SpareBits(n - 3) }

  /** No letter fewer would hold the bytes. */
  lemma {:induction false} LettersFit(n: nat)
    ensures 6 * Letters(n) == n * 8 + SpareBits(n) && SpareBits(n) < 6
  {
    if n > 3 { LettersFit(n - 3); }
  }

  predicate PadsFrom(s: string, n: nat) { n <= |s| && forall i :: n <= i < |s| ==> s[i] == '=' }

  lemma PadsAfter(init: string, g: string, n: nat)
    requires PadsFrom(g, n)
    ensures PadsFrom(init + g, |init| + n)
  {
  }

  lemma {:induction false} EncodingSpells(number: nat, data: seq<Byte>)
    ensures Letters(|data|) <= |Encoded(data)|
    ensures Spelling(number, Encoded(data), Letters(|data|)) == Shl(Written(number, data), SpareBits(|data|))
    decreases |data|
  {
    if 1 <= |data| <= 3 {
      GroupSpells(number, data);
    } else if data != [] {
      var (g, rest) := (Group(data[..3]), data[3..]);
      GroupSpells(number, data[..3]);
      EncodingSpells(Written(number, data[..3]), rest);
      SpellingOn(number, g, Encoded(rest), Letters(|rest|));
      WrittenOn(number, data[..3], rest);
      assert data[..3] + rest == data;
    }
  }

  lemma {:induction false} EncodingPads(data: seq<Byte>)
    ensures PadsFrom(Encoded(data), Letters(|data|)) && |Encoded(data)| == (|data| + 2) / 3 * 4
  {
    if |data| > 3 {
      EncodingPads(data[3..]);
      PadsAfter(Group(data[..3]), Encoded(data[3..]), Letters(|data| - 3));
    }
  }

  /**
   * An encoding is four characters for every three bytes or part of three: the
   * letters the bytes need, spelling them and the zero bits that fill the last
   * letter, and then '='.
   */
  lemma EncodedIsTheBytes(data: seq<Byte>)
    ensures var (s, k) := (Encoded(data), Letters(|data|));
      && |s| == (|data| + 2) / 3 * 4 && PadAt(s) == k && PadsFrom(s, k)
      && Spelling(0, s, k) == Shl(Written(0, data), SpareBits(|data|))
  {
    EncodingSpells(0, data);
    EncodingPads(data);
    PadIs(Encoded(data), Letters(|data|));
  }

  lemma {:induction false} SameNumber(a: seq<Byte>, b: seq<Byte>)
    requires |a| == |b| && Written(0, a) == Written(0, b)
    ensures a == b
  {
    if a != [] {
      var n := |a| - 1;
      SameNumber(a[..n], b[..n]);
      assert a == a[..n] + [a[n]] && b == b[..n] + [b[n]];
    }
  }

  lemma EncodedDecodes(data: seq<Byte>)
    ensures var (s, n) := (Encoded(data), |data|);
      && Spelling(0, s, PadAt(s)) >= 0 && 6 * PadAt(s) / 8 == n
      && Shr(Spelling(0, s, PadAt(s)), 6 * PadAt(s) % 8) == Written(0, data)
  {
    EncodedIsTheBytes(data);
    LettersFit(|data|);
    NumberBack(Letters(|data|), |data|, SpareBits(|data|), Written(0, data));
  }

  lemma NumberBack(letters: nat, bytes: nat, spare: nat, number: nat)
    requires 6 * letters == bytes * 8 + spare && spare < 6
    ensures 6 * letters / 8 == bytes && Shr(Shl(number, spare), 6 * letters % 8) == number
  {
    EightAtATime(bytes, spare, 6 * letters);
    HighAndLow(0, spare);
    ShiftedBack(number, spare, 0);
  }

  /** Decoding an encoding gives the bytes back, and nothing else. */
  lemma RoundTrip(data: seq<Byte>, r: Result<seq<Byte>>)
    requires Decodes(Encoded(data), r)
    ensures r == Ok(data)
  {
    EncodedDecodes(data);
    SameNumber(r.value, data);
  }

  /** Decoding fails exactly when a character outside the alphabet stands before the first '='. */
  lemma FailsOnABadCharacter(s: string, r: Result<seq<Byte>>)
    requires Decodes(s, r)
    ensures r.Err? <==> exists i :: 0 <= i < PadAt(s) && ValueOf(s[i]) < 0
  {
    if i :| 0 <= i < PadAt(s) && ValueOf(s[i]) < 0 { NotPast(0, s, i, PadAt(s)); } else { AllSpelt(s, PadAt(s)); }
  }

  lemma {:induction false} AllSpelt(s: string, k: nat)
    requires k <= |s| && forall i :: 0 <= i < k ==> ValueOf(s[i]) >= 0
    ensures Spelling(0, s, k) >= 0
  {
    if k > 0 { AllSpelt(s, k - 1); }
  }
}
