/** gRPC health probes: Protocol Buffers varints, and the frames of `grpc.health.v1`. */
module GrpcHealth {
  import opened Process

  type Byte = b: int | 0 <= b < 256

  const TWO32: nat := 0x1_0000_0000
  const TWO64: nat := 0x1_0000_0000_0000_0000

  /** A number, and the bytes it took. */
  datatype Read = Read(value: nat, size: nat)

  // ---------------------------------------------------------------- varints

  /** The value of `n` base-128 digits from index `i` on, least significant first ("Base 128 Varints"). */
  function Digits(b: seq<Byte>, i: nat, n: nat): nat
    requires i + n <= |b|
    decreases n
  {
    if n == 0 then 0 else b[i] % 128 + 128 * Digits(b, i + 1, n - 1)
  }

  /**
   * The bytes of the varint at index `i`, of which `k` are known to say that more
   * follow; 0 if it does not end in ten.
   */
  function Size(b: seq<Byte>, i: nat, k: nat): (n: nat)
    ensures n == 0 || (k < n <= 10 && i + n <= |b|)
    decreases 10 - k
  {
    if k >= 10 || i + k >= |b| then 0 else if b[i + k] < 128 then k + 1 else Size(b, i, k + 1)
  }

  /** The varint at index `i`, as a 64-bit register holds it. */
  function Head(b: seq<Byte>, i: nat): Option<Read> {
    var n := Size(b, i, 0);
    if n == 0 then None else Some(Read(Digits(b, i, n) % TWO64, n))
  }

  predicate IsVarint(e: seq<Byte>) { e != [] && Size(e, 0, 0) == |e| }

  function Held(e: seq<Byte>): nat { Digits(e, 0, |e|) % TWO64 }

  /** `x`, shifted left by seven bits `k` times. */
  function Up(x: nat, k: nat): nat { if k == 0 then x else 128 * Up(x, k - 1) }

  /** The register with the low seven bits of the next byte put in, what does not fit being lost. */
  function Merged(v: nat, byte: Byte, k: nat): nat { v + Up(byte % 128, k) % TWO64 }

  /** Reads the varint at the head of the slice from `from` on. */
  method Varint(b: seq<Byte>, from: nat) returns (r: Option<Read>)
    requires from <= |b|
    ensures r == Head(b, from)
  {
    var v := 0;
    var i := 0;
    while from + i < |b| && i < 10
      invariant 0 <= i <= 10 && from + i <= |b| && Size(b, from, i) == Size(b, from, 0)
      invariant i < 10 ==> v == Digits(b, from, i)
    {
      var byte := b[from + i];
      NextSeven(b, from, i);
      v := Merged(v, byte, i);
      if byte < 128 {
        return Some(Read(v, i + 1));
      }
      i := i + 1;
    }
    return None;
  }

  method PutVarint(out: seq<Byte>, n: nat) returns (out': seq<Byte>)
    requires n < TWO64
    ensures out' == out + Encoding(n)
  {
    var v := n;
    out' := out;
    while v >= 0x80
      invariant 0 <= v && out' + Encoding(v) == out + Encoding(n)
    {
      out' := out' + [v % 128 + 0x80];
      v := v / 128;
    }
    out' := out' + [v];
  }

  function Encoding(v: nat): seq<Byte> { if v < 128 then [v] else [v % 128 + 128] + Encoding(v / 128) }

  lemma {:induction false} NextDigit(b: seq<Byte>, i: nat, n: nat)
    requires i + n < |b|
    ensures Digits(b, i, n + 1) == Digits(b, i, n) + Up(b[i + n] % 128, n)
    decreases n
  {
    if n > 0 { NextDigit(b, i + 1, n - 1); }
  }

  lemma {:induction false} DigitsFit(b: seq<Byte>, i: nat, n: nat)
    requires i + n <= |b|
    ensures Digits(b, i, n) < Up(1, n)
    decreases n
  {
    if n > 0 { DigitsFit(b, i + 1, n - 1); }
  }

  lemma {:induction false} UpGrows(n: nat, m: nat)
    requires n <= m
    ensures Up(1, n) <= Up(1, m)
  {
    if n < m { UpGrows(n, m - 1); }
  }

  lemma UpNine(x: nat)
    ensures Up(x, 9) == x * (TWO64 / 2) && Up(x, 10) == x * (64 * TWO64)
  {
    assert Up(x, 1) == 0x80 * x;
    assert Up(x, 2) == 0x4000 * x;
    assert Up(x, 4) == 0x1000_0000 * x;
    assert Up(x, 6) == 0x400_0000_0000 * x;
    assert Up(x, 8) == 0x100_0000_0000_0000 * x;
  }

  /** Seven bits more. Nine bytes fit the register; of the tenth only its lowest bit does. */
  lemma NextSeven(b: seq<Byte>, i: nat, n: nat)
    requires i + n < |b| && n < 10
    ensures Merged(Digits(b, i, n), b[i + n], n) == Digits(b, i, n + 1) % TWO64
    ensures n < 9 ==> Merged(Digits(b, i, n), b[i + n], n) == Digits(b, i, n + 1)
  {
    NextDigit(b, i, n);
    DigitsFit(b, i, n);
    DigitsFit(b, i, n + 1);
    SevenMore(Digits(b, i, n), b[i + n] % 128, n);
  }

  lemma SevenMore(v: nat, x: nat, n: nat)
    requires n < 10 && v < Up(1, n) && v + Up(x, n) < Up(1, n + 1)
    ensures v + Up(x, n) % TWO64 == (v + Up(x, n)) % TWO64
    ensures n < 9 ==> v + Up(x, n) < TWO64
  {
    UpNine(1);
    if n < 9 {
      UpGrows(n + 1, 9);
    } else {
      UpNine(x);
      TenthByte(v, x);
    }
  }

  lemma TenthByte(v: nat, x: nat)
    requires v < TWO64 / 2
    ensures v + x * (TWO64 / 2) % TWO64 == (v + x * (TWO64 / 2)) % TWO64
  {
    var (q, r) := (x / 2, x % 2);
    assert x * (TWO64 / 2) == q * TWO64 + r * (TWO64 / 2);
  }

  /** These bytes stand at index `i`. */
  predicate Stands(b: seq<Byte>, i: nat, e: seq<Byte>) { i + |e| <= |b| && b[i..i + |e|] == e }

  lemma {:induction false} SameDigits(b: seq<Byte>, i: nat, e: seq<Byte>, j: nat)
    requires j <= |e| && Stands(b, i, e)
    ensures Digits(b, i + j, |e| - j) == Digits(e, j, |e| - j)
    decreases |e| - j
  {
    if j < |e| {
      SameDigits(b, i, e, j + 1);
      assert b[i + j] == b[i..i + |e|][j];
    }
  }

  /** A varint ends where its bytes say so, whatever is around it. */
  lemma {:induction false} SameSize(b: seq<Byte>, i: nat, e: seq<Byte>, k: nat)
    requires k <= |e| && Stands(b, i, e)
    ensures Size(e, 0, k) > 0 ==> Size(b, i, k) == Size(e, 0, k)
    ensures 0 < Size(b, i, k) <= |e| ==> Size(e, 0, k) == Size(b, i, k)
    decreases 10 - k
  {
    if k < |e| {
      assert b[i + k] == b[i..i + |e|][k];
      if k < 10 { SameSize(b, i, e, k + 1); }
    }
  }

  lemma HeadAt(b: seq<Byte>, i: nat, e: seq<Byte>)
    requires Stands(b, i, e) && IsVarint(e)
    ensures Head(b, i) == Some(Read(Held(e), |e|))
  {
    SameSize(b, i, e, 0);
    SameDigits(b, i, e, 0);
  }

  lemma HeadStands(b: seq<Byte>, i: nat, r: Read)
    requires Head(b, i) == Some(r)
    ensures 0 < r.size && i + r.size <= |b| && IsVarint(b[i..i + r.size]) && Held(b[i..i + r.size]) == r.value
  {
    var e := b[i..i + r.size];
    SameSize(b, i, e, 0);
    SameDigits(b, i, e, 0);
  }

  lemma {:induction false} SizeIsTheEnd(e: seq<Byte>, k: nat)
    requires k <= |e| && k <= 10 && forall i :: 0 <= i < k ==> e[i] >= 128
    ensures var n := Size(e, 0, k);
      if n > 0 then e[n - 1] < 128 && forall i :: 0 <= i < n - 1 ==> e[i] >= 128
      else forall i :: 0 <= i < |e| && i < 10 ==> e[i] >= 128
    decreases 10 - k
  {
    if k < 10 && k < |e| && e[k] >= 128 { SizeIsTheEnd(e, k + 1); }
  }

  /** A varint is one to ten bytes, of which every one but the last says that more follow. */
  lemma {:induction false} VarintShape(e: seq<Byte>)
    ensures IsVarint(e) <==> 1 <= |e| <= 10 && e[|e| - 1] < 128 && forall i :: 0 <= i < |e| - 1 ==> e[i] >= 128
  {
    SizeIsTheEnd(e, 0);
  }

  lemma OneMoreByte(first: Byte, rest: seq<Byte>)
    requires IsVarint(rest) && |rest| < 10 && first >= 128
    ensures var e := [first] + rest; IsVarint(e) && Digits(e, 0, |e|) == first - 128 + 128 * Digits(rest, 0, |rest|)
  {
    var e := [first] + rest;
    VarintShape(rest);
    VarintShape(e);
    SameDigits(e, 1, rest, 0);
  }

  lemma {:induction false} EncodingReads(n: nat, k: nat)
    requires n < Up(1, k) && 1 <= k <= 10
    ensures IsVarint(Encoding(n)) && |Encoding(n)| <= k && Digits(Encoding(n), 0, |Encoding(n)|) == n
  {
    if n >= 128 {
      EncodingReads(n / 128, k - 1);
      OneMoreByte(n % 128 + 128, Encoding(n / 128));
    }
  }

  lemma EncodingIsGood(n: nat)
    requires n < TWO64
    ensures |Encoding(n)| <= 10 && IsVarint(Encoding(n)) && Held(Encoding(n)) == n
  {
    UpNine(1);
    EncodingReads(n, 10);
  }

  /** Every 64-bit number comes back from its encoding, of ten bytes at most, whatever is around it. */
  lemma VarintRoundTrip(n: nat, b: seq<Byte>, i: nat)
    requires n < TWO64 && Stands(b, i, Encoding(n))
    ensures |Encoding(n)| <= 10 && Head(b, i) == Some(Read(n, |Encoding(n)|))
  {
    EncodingIsGood(n);
    HeadAt(b, i, Encoding(n));
  }

  // ----------------------------------------------------------------- frames

  /** A number as it is on the wire. */
  datatype Num = Num(bytes: seq<Byte>, value: nat)

  predicate Good(n: Num) { IsVarint(n.bytes) && n.value == Held(n.bytes) }

  /** A field as it is on the wire: its tag, and then a number or so many bytes. */
  datatype Field = Number(tag: Num, number: Num) | Lump(tag: Num, length: Num, payload: seq<Byte>) {
    function Second(): Num { if Number? then number else length }

    function Payload(): seq<Byte> { if Number? then [] else payload }

    function Wire(): (w: seq<Byte>)
      ensures |w| == Size()
    {
      tag.bytes + Second().bytes + Payload()
    }

    function Size(): nat { |tag.bytes| + |Second().bytes| + |Payload()| }

    /** Wire types 0 and 2. Only a message's last field may have its bytes cut short. */
    predicate Fits(last: bool) {
      match this
      case Number(tag, _) => tag.value % 8 == 0
      case Lump(tag, length, payload) =>
        tag.value % 8 == 2 && (|payload| == length.value || (last && |payload| <= length.value))
    }

    predicate Written(good: Num -> bool) { good(tag) && good(Second()) && tag.bytes != [] }

    predicate IsStatus() { Number? && tag.value / 8 == 1 }

    function After(status: nat): nat { if IsStatus() then number.value else status }
  }

  function Message(fields: seq<Field>): seq<Byte> {
    if fields == [] then [] else fields[0].Wire() + Message(fields[1..])
  }

  /** Every tag, number and length is a varint. */
  predicate AllGood(good: Num -> bool, fields: seq<Field>) {
    fields == [] || (fields[0].Written(good) && AllGood(good, fields[1..]))
  }

  predicate AllFit(fields: seq<Field>) {
    fields == [] || (fields[0].Fits(|fields| == 1) && AllFit(fields[1..]))
  }

  /** The last field 1 of the message; the default if it has none. */
  function Status(fields: seq<Field>, default: nat): nat {
    if fields == [] then default
    else if fields[|fields| - 1].IsStatus() then fields[|fields| - 1].number.value
    else Status(fields[..|fields| - 1], default)
  }

  function BigEndian(b: seq<Byte>): nat
    requires |b| == 4
  {
    b[0] as int * 0x100_0000 + b[1] as int * 0x1_0000 + b[2] as int * 0x100 + b[3]
  }

  /** An uncompressed Length-Prefixed-Message of these fields; what follows it does not matter. */
  predicate IsFrame(frame: seq<Byte>, fields: seq<Field>) {
    && |frame| >= 5 && frame[0] == 0
    && AllGood(Good, fields) && AllFit(fields)
    && BigEndian(frame[1..5]) == |Message(fields)|
    && Stands(frame, 5, Message(fields))
  }

  /** The varints at each index of a message, its end included. */
  function Heads(msg: seq<Byte>): (heads: seq<Option<Read>>)
    ensures |heads| == |msg| + 1
  {
    seq(|msg| + 1, i requires 0 <= i => Head(msg, i))
  }

  /** The status after the fields from index `i` on, starting from this one, by the varints at each index. */
  function Scan(heads: seq<Option<Read>>, i: nat, status: nat): Option<nat>
    decreases |heads| - i, 1
  {
    if i + 1 >= |heads| then Some(status)
    else
      match heads[i]
      case None => None
      case Some(tag) => ScanField(heads, i + tag.size, tag.value, status)
  }

  /** The same, with a tag read that takes the field up to index `i`. */
  function ScanField(heads: seq<Option<Read>>, i: nat, tag: nat, status: nat): Option<nat>
    decreases |heads| - i, 0
  {
    if i >= |heads| || (tag % 8 != 0 && tag % 8 != 2) then None
    else
      match heads[i]
      case None => None
      case Some(v) =>
        var next := i + v.size + if tag % 8 == 2 then v.value else 0;
        if next <= i then None else Scan(heads, next, if tag % 8 == 0 && tag / 8 == 1 then v.value else status)
  }

  function Served(frame: seq<Byte>): Option<nat> {
    if |frame| < 5 || frame[0] != 0 || BigEndian(frame[1..5]) > |frame| - 5 then None
    else Scan(Heads(frame[5..5 + BigEndian(frame[1..5])]), 0, 0)
  }

  method ServingStatus(frame: seq<Byte>) returns (r: Option<nat>)
    ensures r == Served(frame)
  {
    if |frame| < 5 || frame[0] != 0 {
      return None;
    }
    var len := BigEndian(frame[1..5]);
    if 5 + len > |frame| {
      return None;
    }
    r := MessageStatus(frame[5..5 + len]);
  }

  /** The loop over the message's fields. */
  method MessageStatus(msg: seq<Byte>) returns (r: Option<nat>)
    ensures r == Scan(Heads(msg), 0, 0)
  {
    var i: nat := 0;
    var status: nat := 0;
    ghost var heads := Heads(msg);
    while i < |msg|
      invariant Scan(heads, i, status) == Scan(heads, 0, 0)
      decreases |msg| - i
    {
      var tag := Varint(msg, i);
      if tag.None? { return None; }
      var at := AfterField(msg, i + tag.value.size, tag.value.value, status);
      if at.None? { return None; }
      i, status := at.value.i, at.value.status;
    }
    return Some(status);
  }

  datatype At = At(i: nat, status: nat)

  /** One turn of it, after the tag. */
  method AfterField(msg: seq<Byte>, i: nat, tag: nat, status: nat) returns (at: Option<At>)
    requires i <= |msg|
    ensures if at.None? then ScanField(Heads(msg), i, tag, status) == None
      else at.value.i >= i && ScanField(Heads(msg), i, tag, status) == Scan(Heads(msg), at.value.i, at.value.status)
  {
    if tag % 8 == 0 {
      var v := Varint(msg, i);
      if v.None? { return None; }
      return Some(At(i + v.value.size, if tag / 8 == 1 then v.value.value else status));
    } else if tag % 8 == 2 {
      var l := Varint(msg, i);
      if l.None? { return None; }
      return Some(At(i + l.value.size + l.value.value, status));
    } else {
      return None;
    }
  }

  // ------------------------------------------- what the scan of a frame finds

  lemma Part(msg: seq<Byte>, i: nat, a: seq<Byte>, b: seq<Byte>)
    requires i + |a| + |b| <= |msg|
    ensures Stands(msg, i, a + b) <==> Stands(msg, i, a) && Stands(msg, i + |a|, b)
  {
    var e := msg[i..i + |a + b|];
    assert e[..|a|] == msg[i..i + |a|] && e[|a|..] == msg[i + |a|..i + |a| + |b|];
    assert e == e[..|a|] + e[|a|..];
  }

  lemma WireParts(msg: seq<Byte>, i: nat, f: Field)
    requires i + f.Size() <= |msg|
    ensures Stands(msg, i, f.Wire()) <==>
      && Stands(msg, i, f.tag.bytes) && Stands(msg, i + |f.tag.bytes|, f.Second().bytes)
      && (f.Number? || Stands(msg, i + |f.tag.bytes + f.length.bytes|, f.payload))
  {
    var (a, b) := (f.tag.bytes, f.Second().bytes);
    Part(msg, i, a + b, f.Payload());
    Part(msg, i, a, b);
  }

  /**
   * A reading of a message by some code for numbers: where a good number
   * stands it is found, and what is found is a good number.
   */
  ghost predicate Reading(msg: seq<Byte>, heads: seq<Option<Read>>, good: Num -> bool) {
    && |heads| == |msg| + 1
    && (forall i: nat, n: Num :: Seen(msg, i, n, good) ==> heads[i] == Some(Read(n.value, |n.bytes|)))
    && (forall i: nat {:trigger Finds(msg, i, heads[i].value, good)} ::
          i < |heads| && heads[i].Some? ==> Finds(msg, i, heads[i].value, good))
  }

  predicate Seen(msg: seq<Byte>, i: nat, n: Num, good: Num -> bool) { good(n) && Stands(msg, i, n.bytes) }

  predicate Finds(msg: seq<Byte>, i: nat, r: Read, good: Num -> bool) {
    0 < r.size && i + r.size <= |msg| && good(Num(msg[i..i + r.size], r.value))
  }

  /** Where these fields stand, to the end, the reading finds their tags and numbers. */
  predicate Laid(heads: seq<Option<Read>>, i: nat, fields: seq<Field>)
    decreases |fields|
  {
    if fields == [] then i + 1 == |heads|
    else
      var (f, j) := (fields[0], i + |fields[0].tag.bytes|);
      && i <= j < |heads| && heads[i] == Some(Read(f.tag.value, |f.tag.bytes|))
      && heads[j] == Some(Read(f.Second().value, |f.Second().bytes|)) && |f.Second().bytes| > 0
      && Laid(heads, i + f.Size(), fields[1..])
  }

  lemma NumFound(msg: seq<Byte>, heads: seq<Option<Read>>, good: Num -> bool, i: nat, n: Num)
    requires Reading(msg, heads, good) && good(n) && Stands(msg, i, n.bytes)
    ensures i < |heads| && heads[i] == Some(Read(n.value, |n.bytes|)) && n.bytes != []
  {
    assert Seen(msg, i, n, good);
    assert Finds(msg, i, heads[i].value, good);
  }

  lemma FirstStands(msg: seq<Byte>, i: nat, f: Field, rest: seq<Byte>)
    requires i <= |msg|
    ensures msg[i..] == f.Wire() + rest <==> Stands(msg, i, f.Wire()) && msg[i + f.Size()..] == rest
  {
    var e := f.Wire();
    if msg[i..] == e + rest {
      assert (e + rest)[..|e|] == e && (e + rest)[|e|..] == rest;
      assert msg[i..][..|e|] == msg[i..i + |e|] && msg[i..][|e|..] == msg[i + |e|..];
    }
    if Stands(msg, i, e) { assert msg[i..] == msg[i..i + |e|] + msg[i + |e|..]; }
  }

  lemma FieldFound(msg: seq<Byte>, heads: seq<Option<Read>>, good: Num -> bool, i: nat, f: Field)
    requires Reading(msg, heads, good) && f.Written(good) && Stands(msg, i, f.Wire())
    ensures var j := i + |f.tag.bytes|;
      && j < |heads| && heads[i] == Some(Read(f.tag.value, |f.tag.bytes|))
      && heads[j] == Some(Read(f.Second().value, |f.Second().bytes|)) && f.Second().bytes != []
  {
    WireParts(msg, i, f);
    NumFound(msg, heads, good, i, f.tag);
    NumFound(msg, heads, good, i + |f.tag.bytes|, f.Second());
  }

  /** Good numbers and fields that fit stand one after another from index `i` to the end. */
  predicate Stand(msg: seq<Byte>, good: Num -> bool, i: nat, fields: seq<Field>)
    decreases |fields|
  {
    if fields == [] then i == |msg|
    else
      var f := fields[0];
      && f.Written(good) && f.Fits(|fields| == 1)
      && Stands(msg, i, f.Wire()) && Stand(msg, good, i + f.Size(), fields[1..])
  }

  lemma {:induction false} StandAsMessage(msg: seq<Byte>, good: Num -> bool, i: nat, fields: seq<Field>)
    requires i <= |msg|
    ensures Stand(msg, good, i, fields) <==> AllGood(good, fields) && AllFit(fields) && msg[i..] == Message(fields)
    decreases |fields|
  {
    if fields != [] {
      var (f, rest) := (fields[0], fields[1..]);
      FirstStands(msg, i, f, Message(rest));
      if i + f.Size() <= |msg| { StandAsMessage(msg, good, i + f.Size(), rest); }
    }
  }

  lemma {:induction false} FieldsLaid(msg: seq<Byte>, heads: seq<Option<Read>>, good: Num -> bool, i: nat,
                                      fields: seq<Field>)
    requires Reading(msg, heads, good) && Stand(msg, good, i, fields)
    ensures Laid(heads, i, fields)
    decreases |fields|
  {
    if fields != [] {
      FieldFound(msg, heads, good, i, fields[0]);
      FieldsLaid(msg, heads, good, i + fields[0].Size(), fields[1..]);
    }
  }

  lemma {:induction false} StatusFromTheFront(f: Field, rest: seq<Field>, default: nat)
    ensures Status([f] + rest, default) == Status(rest, f.After(default))
  {
    if rest == [] {
      assert ([f] + rest)[..0] == [] && [f] + rest == [f];
    } else {
      assert ([f] + rest)[..|rest|] == [f] + rest[..|rest| - 1];
      StatusFromTheFront(f, rest[..|rest| - 1], default);
    }
  }

  /** Fields that fit scan to their status. */
  lemma {:induction false} LaidScan(heads: seq<Option<Read>>, i: nat, fields: seq<Field>, status: nat)
    requires Laid(heads, i, fields) && AllFit(fields)
    ensures Scan(heads, i, status) == Some(Status(fields, status))
    decreases |fields|
  {
    if fields != [] {
      var (f, rest) := (fields[0], fields[1..]);
      assert fields == [f] + rest;
      StatusFromTheFront(f, rest, status);
      LaidScan(heads, i + f.Size(), rest, f.After(status));
      ScanOne(heads, i, f, status);
    }
  }

  lemma ScanOne(heads: seq<Option<Read>>, i: nat, f: Field, status: nat)
    requires var (j, end) := (i + |f.tag.bytes|, i + f.Size());
      && j < |heads| && end < |heads| && f.Second().bytes != [] && f.Fits(end + 1 == |heads|)
      && heads[i] == Some(Read(f.tag.value, |f.tag.bytes|))
        && heads[j] == Some(Read(f.Second().value, |f.Second().bytes|))
    ensures Scan(heads, i, status) == Scan(heads, i + f.Size(), f.After(status))
  {
    var j := i + |f.tag.bytes|;
    assert Scan(heads, i, status) == ScanField(heads, j, f.tag.value, status);
    var next := j + |f.Second().bytes| + if f.Lump? then f.length.value else 0;
    assert ScanField(heads, j, f.tag.value, status) == Scan(heads, next, f.After(status));
    if next != i + f.Size() { assert Scan(heads, next, status) == Some(status); }
  }

  /** The two varints that a scan finds at index `i`, and what follows. */
  lemma ScanStep(heads: seq<Option<Read>>, i: nat, status: nat) returns (tag: Read, v: Read, after: nat)
    requires i + 1 < |heads| && Scan(heads, i, status).Some?
    ensures var j := i + tag.size; var next := j + v.size + if tag.value % 8 == 2 then v.value else 0;
      && heads[i] == Some(tag) && j < |heads| && heads[j] == Some(v) && (tag.value % 8 == 0 || tag.value % 8 == 2)
      && next > j && Scan(heads, next, after).Some?
  {
    tag := heads[i].value;
    v := heads[i + tag.size].value;
    after := if tag.value % 8 == 0 && tag.value / 8 == 1 then v.value else status;
  }

  /** The field they begin. */
  lemma FieldHere(msg: seq<Byte>, heads: seq<Option<Read>>, good: Num -> bool, i: nat, tag: Read, v: Read)
    returns (f: Field)
    requires Reading(msg, heads, good) && i < |heads| && heads[i] == Some(tag)
    requires i + tag.size < |heads| && heads[i + tag.size] == Some(v) && (tag.value % 8 == 0 || tag.value % 8 == 2)
    ensures Stands(msg, i, f.Wire()) && f.Size() > 0 && f.Written(good) && f.Fits(i + f.Size() == |msg|)
    ensures var next := i + tag.size + v.size + if tag.value % 8 == 2 then v.value else 0;
      i + f.Size() == if next < |msg| then next else |msg|
  {
    var j := i + tag.size;
    var k := j + v.size;
    assert Finds(msg, i, heads[i].value, good) && Finds(msg, j, heads[j].value, good);
    var (a, b) := (Num(msg[i..j], tag.value), Num(msg[j..k], v.value));
    if tag.value % 8 == 0 {
      f := NumberHere(msg, i, j, k, a, b);
    } else {
      f := LumpHere(msg, i, j, k, a, b);
    }
  }

  lemma NumberHere(msg: seq<Byte>, i: nat, j: nat, k: nat, a: Num, b: Num) returns (f: Field)
    requires i < j < k <= |msg| && a.bytes == msg[i..j] && b.bytes == msg[j..k] && a.value % 8 == 0
    ensures f == Number(a, b) && f.Size() == k - i && Stands(msg, i, f.Wire()) && f.Fits(k == |msg|)
  {
    f := Number(a, b);
    WireParts(msg, i, f);
  }

  lemma LumpHere(msg: seq<Byte>, i: nat, j: nat, k: nat, a: Num, b: Num) returns (f: Field)
    requires i < j < k <= |msg| && a.bytes == msg[i..j] && b.bytes == msg[j..k] && a.value % 8 == 2
    ensures var end := if k + b.value < |msg| then k + b.value else |msg|;
      && f == Lump(a, b, msg[k..end]) && f.Size() == end - i && Stands(msg, i, f.Wire()) && f.Fits(end == |msg|)
  {
    f := Lump(a, b, msg[k..if k + b.value < |msg| then k + b.value else |msg|]);
    WireParts(msg, i, f);
  }

  /** A message that scans is one of good numbers and fields that fit. */
  lemma {:induction false} ScannedFields(msg: seq<Byte>, heads: seq<Option<Read>>, good: Num -> bool, i: nat,
                                         status: nat)
    returns (fields: seq<Field>)
    requires Reading(msg, heads, good) && i <= |msg| && Scan(heads, i, status).Some?
    ensures Stand(msg, good, i, fields)
    decreases |msg| - i
  {
    if i == |msg| { return []; }
    var tag, v, after := ScanStep(heads, i, status);
    var f := FieldHere(msg, heads, good, i, tag, v);
    var end := i + f.Size();
    PastTheEnd(heads, i + tag.size + v.size + if tag.value % 8 == 2 then v.value else 0, end, after);
    var rest := ScannedFields(msg, heads, good, end, after);
    OneMoreStands(msg, good, i, f, rest);
    fields := [f] + rest;
  }

  lemma OneMoreStands(msg: seq<Byte>, good: Num -> bool, i: nat, f: Field, rest: seq<Field>)
    requires f.Written(good) && Stands(msg, i, f.Wire()) && f.Fits(i + f.Size() == |msg|)
    requires Stand(msg, good, i + f.Size(), rest)
    ensures Stand(msg, good, i, [f] + rest)
  {
    assert ([f] + rest)[1..] == rest;
  }

  lemma PastTheEnd(heads: seq<Option<Read>>, next: nat, end: nat, status: nat)
    requires Scan(heads, next, status).Some? && (end == next || end + 1 == |heads|)
    ensures Scan(heads, end, status).Some?
  {
  }

  lemma HeadsRead(msg: seq<Byte>)
    ensures Reading(msg, Heads(msg), Good)
  {
    var heads := Heads(msg);
    forall i: nat, n: Num | Seen(msg, i, n, Good) ensures heads[i] == Some(Read(n.value, |n.bytes|)) {
      HeadAt(msg, i, n.bytes);
    }
    forall i: nat | i < |heads| && heads[i].Some? ensures Finds(msg, i, heads[i].value, Good) {
      HeadStands(msg, i, heads[i].value);
    }
  }

  lemma MessageScans(msg: seq<Byte>, heads: seq<Option<Read>>, good: Num -> bool, fields: seq<Field>)
    requires Reading(msg, heads, good) && AllGood(good, fields) && AllFit(fields) && Message(fields) == msg
    ensures Scan(heads, 0, 0) == Some(Status(fields, 0))
  {
    StandAsMessage(msg, good, 0, fields);
    FieldsLaid(msg, heads, good, 0, fields);
    LaidScan(heads, 0, fields, 0);
  }

  lemma ScansAsMessage(msg: seq<Byte>, heads: seq<Option<Read>>, good: Num -> bool) returns (fields: seq<Field>)
    requires Reading(msg, heads, good) && Scan(heads, 0, 0).Some?
    ensures AllGood(good, fields) && AllFit(fields) && Message(fields) == msg
  {
    fields := ScannedFields(msg, heads, good, 0, 0);
    StandAsMessage(msg, good, 0, fields);
  }

  /**
   * The status served is that of a frame of well-formed fields, their last
   * field 1 or else 0; and any other frame has none.
   */
  lemma ServedIsTheStatus(frame: seq<Byte>, status: nat)
    ensures Served(frame) == Some(status) <==> exists fields :: IsFrame(frame, fields) && Status(fields, 0) == status
  {
    if fields :| IsFrame(frame, fields) && Status(fields, 0) == status {
      HeadsRead(Message(fields));
      MessageScans(Message(fields), Heads(Message(fields)), Good, fields);
    }
    if Served(frame) == Some(status) {
      var msg := frame[5..5 + BigEndian(frame[1..5])];
      HeadsRead(msg);
      var fields := ScansAsMessage(msg, Heads(msg), Good);
      MessageScans(msg, Heads(msg), Good, fields);
      assert IsFrame(frame, fields);
    }
  }

  // --------------------------------------------------------------- requests

  function FourBytes(n: nat): seq<Byte> {
    var n := n % TWO32;
    var high := n / 0x100 / 0x100;
    [high / 0x100, high % 0x100, n / 0x100 % 0x100, n % 0x100]
  }

  /** What a request for this service holds: its name, field 1, or nothing. */
  function RequestFields(service: seq<Byte>): seq<Field> {
    if service == [] then [] else [Lump(Num([0x0a], 10), Num(Encoding(|service|), |service|), service)]
  }

  /** A length-prefixed `HealthCheckRequest` for this service. */
  method Request(service: seq<Byte>) returns (out: seq<Byte>)
    requires |service| < TWO64
    ensures |service| < TWO32 - 11 ==> IsFrame(out, RequestFields(service)) && |out| == 5 + BigEndian(out[1..5])
  {
    var msg: seq<Byte> := [];
    if service != [] {
      msg := msg + [0x0a];
      msg := PutVarint(msg, |service|);
      msg := msg + service;
    }
    out := [0] + FourBytes(|msg|) + msg;
    if |service| < TWO32 - 11 {
      RequestFit(service, msg);
      FrameOf(RequestFields(service), out);
    }
  }

  lemma RequestFit(service: seq<Byte>, msg: seq<Byte>)
    requires |service| < TWO32 - 11
    requires msg == if service == [] then [] else [0x0a] + Encoding(|service|) + service
    ensures AllGood(Good, RequestFields(service)) && AllFit(RequestFields(service))
    ensures Message(RequestFields(service)) == msg && |msg| < TWO32
  {
    if service != [] {
      EncodingIsGood(|service|);
      OneLump(Good, TagIsTen(), Num(Encoding(|service|), |service|), service);
    }
  }

  lemma OneLump(good: Num -> bool, tag: Num, length: Num, payload: seq<Byte>)
    requires good(tag) && good(length) && tag.bytes != [] && tag.value == 10 && length.value == |payload|
    ensures var fields := [Lump(tag, length, payload)];
      AllGood(good, fields) && AllFit(fields) && Message(fields) == tag.bytes + length.bytes + payload
  {
    assert [Lump(tag, length, payload)][1..] == [];
  }

  /** Field 1, wire type 2. */
  function TagIsTen(): (n: Num)
    ensures Good(n) && n == Num([0x0a], 10)
  {
    assert Digits([0x0a], 0, 1) == 10 by { assert Digits([0x0a], 1, 0) == 0; }
    Num([0x0a], 10)
  }

  lemma FourBytesBack(n: nat)
    requires n < TWO32
    ensures BigEndian(FourBytes(n)) == n
  {
  }

  lemma FrameOf(fields: seq<Field>, out: seq<Byte>)
    requires AllGood(Good, fields) && AllFit(fields)
    requires var msg := Message(fields); |msg| < TWO32 && out == [0] + FourBytes(|msg|) + msg
    ensures IsFrame(out, fields) && |out| == 5 + BigEndian(out[1..5])
  {
    FourBytesBack(|Message(fields)|);
    assert out[1..5] == FourBytes(|Message(fields)|);
    assert out[5..] == Message(fields);
  }
}
