/**
 The unpadded base64url text of bytes (section 5 of RFC 4648, without padding), as encoded and as decoded
 by Go's RawURLEncoding: the decoder skips line breaks and does not look at the unused bits at the end.
 */
module Base64Url {
  import opened Bytes

  type sextet = v: int | 0 <= v < 64

  const LINE_FEED: byte := 10
  const CARRIAGE_RETURN: byte := 13

  function Symbol(v: sextet): byte {
    if v < 26 then v + 65
    else if v < 52 then v - 26 + 97
    else if v < 62 then v - 52 + 48
    else if v == 62 then 45
    else 95
  }

  function Value(c: byte): Option<sextet> {
    if 65 <= c <= 90 then Some(c - 65)
    else if 97 <= c <= 122 then Some(c - 97 + 26)
    else if 48 <= c <= 57 then Some(c - 48 + 52)
    else if c == 45 then Some(62)
    else if c == 95 then Some(63)
    else None
  }

  lemma SymbolRoundTrip(v: sextet, c: byte)
    ensures Value(Symbol(v)) == Some(v)
    ensures Value(c).Some? ==> Symbol(Value(c).value) == c
  {
  }

  function High6(a: byte): sextet { a / 4 }

  function Middle6(a: byte, b: byte): sextet { a % 4 * 16 + b / 16 }

  function Lower6(b: byte, c: byte): sextet { b % 16 * 4 + c / 64 }

  function Low6(c: byte): sextet { c % 64 }

  function First8(p: sextet, q: sextet): byte { (p as int) * 4 + q / 16 }

  function Second8(q: sextet, r: sextet): byte { (q as int) % 16 * 16 + r / 4 }

  function Third8(r: sextet, s: sextet): byte { (r as int) % 4 * 64 + s }

  lemma Bits(a: byte, b: byte, c: byte)
    ensures First8(High6(a), Middle6(a, b)) == a
    ensures Second8(Middle6(a, b), Lower6(b, c)) == b
    ensures Third8(Lower6(b, c), Low6(c)) == c
  {
  }

  lemma BitsBack(p: sextet, q: sextet, r: sextet, s: sextet)
    ensures High6(First8(p, q)) == p
    ensures Middle6(First8(p, q), Second8(q, r)) == q
    ensures Lower6(Second8(q, r), Third8(r, s)) == r
    ensures Low6(Third8(r, s)) == s
    ensures Middle6(First8(p, q), 0) == q <==> q % 16 == 0
    ensures Lower6(Second8(q, r), 0) == r <==> r % 4 == 0
  {
  }

  lemma SymbolIsText(v: sextet)
    ensures Value(Symbol(v)) == Some(v) && Symbol(v) != LINE_FEED && Symbol(v) != CARRIAGE_RETURN
  {
  }

  /** Three bytes as four groups of six bits; a last group is filled up with zero bits. */
  function Sextets(s: seq<byte>): seq<sextet>
    decreases |s|
  {
    if |s| == 0 then []
    else if |s| == 1 then [High6(s[0]), Middle6(s[0], 0)]
    else if |s| == 2 then [High6(s[0]), Middle6(s[0], s[1]), Lower6(s[1], 0)]
    else [High6(s[0]), Middle6(s[0], s[1]), Lower6(s[1], s[2]), Low6(s[2])] + Sextets(s[3..])
  }

  /** The bytes of groups of six bits; the bits left over are dropped. */
  function Pack(v: seq<sextet>): seq<byte>
    decreases |v|
  {
    if |v| < 2 then []
    else if |v| == 2 then [First8(v[0], v[1])]
    else if |v| == 3 then [First8(v[0], v[1]), Second8(v[1], v[2])]
    else [First8(v[0], v[1]), Second8(v[1], v[2]), Third8(v[2], v[3])] + Pack(v[4..])
  }

  function Symbols(v: seq<sextet>): seq<byte>
    decreases |v|
  {
    if v == [] then [] else [Symbol(v[0])] + Symbols(v[1..])
  }

  function Values(t: seq<byte>): Option<seq<sextet>>
    decreases |t|
  {
    if t == [] then Some([])
    else if Value(t[0]).None? || Values(t[1..]).None? then None
    else Some([Value(t[0]).value] + Values(t[1..]).value)
  }

  function Encode(s: seq<byte>): seq<byte> {
    Symbols(Sextets(s))
  }

  function WithoutLineBreaks(t: seq<byte>): seq<byte>
    decreases |t|
  {
    if t == [] then []
    else if t[0] == LINE_FEED || t[0] == CARRIAGE_RETURN then WithoutLineBreaks(t[1..])
    else [t[0]] + WithoutLineBreaks(t[1..])
  }

  function Decode(t: seq<byte>): Option<seq<byte>> {
    var values := Values(WithoutLineBreaks(t));
    if values.None? || |values.value| % 4 == 1 then None else Some(Pack(values.value))
  }

  lemma PackFour(p: sextet, q: sextet, r: sextet, s: sextet, rest: seq<sextet>)
    ensures Pack([p, q, r, s] + rest) == [First8(p, q), Second8(q, r), Third8(r, s)] + Pack(rest)
  {
    assert ([p, q, r, s] + rest)[4..] == rest;
  }

  lemma SextetsThree(a: byte, b: byte, c: byte, rest: seq<byte>)
    ensures Sextets([a, b, c] + rest) == [High6(a), Middle6(a, b), Lower6(b, c), Low6(c)] + Sextets(rest)
  {
    assert ([a, b, c] + rest)[3..] == rest;
  }

  lemma PackThree(a: byte, b: byte, c: byte, rest: seq<byte>)
    requires Pack(Sextets(rest)) == rest
    ensures Pack(Sextets([a, b, c] + rest)) == [a, b, c] + rest
  {
    SextetsThree(a, b, c, rest);
    PackFour(High6(a), Middle6(a, b), Lower6(b, c), Low6(c), Sextets(rest));
    Bits(a, b, c);
  }

  lemma PackOne(a: byte)
    ensures Pack(Sextets([a])) == [a]
  {
    var q := Middle6(a, 0);
    assert q / 16 == a % 4;
    assert Pack([High6(a), q]) == [First8(High6(a), q)];
  }

  lemma PackTwo(a: byte, b: byte)
    ensures Pack(Sextets([a, b])) == [a, b]
  {
    assert Sextets([a, b]) == [High6(a), Middle6(a, b), Lower6(b, 0)];
    Bits(a, b, 0);
  }

  lemma {:induction false} PackSextets(s: seq<byte>)
    ensures Pack(Sextets(s)) == s
    decreases |s|
  {
    if |s| == 0 {
    } else if |s| == 1 {
      PackOne(s[0]);
      assert s == [s[0]];
    } else if |s| == 2 {
      PackTwo(s[0], s[1]);
      assert s == [s[0], s[1]];
    } else {
      assert s == [s[0], s[1], s[2]] + s[3..];
      PackSextets(s[3..]);
      PackThree(s[0], s[1], s[2], s[3..]);
    }
  }

  lemma {:induction false} SextetsLength(s: seq<byte>)
    ensures |Sextets(s)| % 4 != 1
    decreases |s|
  {
    if |s| >= 3 {
      SextetsLength(s[3..]);
    }
  }

  /** Every symbol is a letter, a digit, `-` or `_`. */
  lemma {:induction false} SymbolsInAlphabet(v: seq<sextet>)
    ensures Values(Symbols(v)) == Some(v) && WithoutLineBreaks(Symbols(v)) == Symbols(v)
    ensures |Symbols(v)| == |v| && forall c :: c in Symbols(v) ==> Value(c).Some?
    decreases |v|
  {
    hide Symbol, Value;
    if v != [] {
      SymbolsInAlphabet(v[1..]);
      SymbolIsText(v[0]);
      assert Symbols(v)[1..] == Symbols(v[1..]);
      assert v == [v[0]] + v[1..];
    }
  }

  /** What is encoded decodes to itself. */
  lemma RoundTrip(s: seq<byte>)
    ensures Decode(Encode(s)) == Some(s)
  {
    PackSextets(s);
    SextetsLength(s);
    SymbolsInAlphabet(Sextets(s));
  }

  /** A last group of this many sextets leaves bits of its last one unused: they are clear. */
  predicate UnusedBitsClear(size: int, last: sextet) {
    (size == 2 ==> last % 16 == 0) && (size == 3 ==> last % 4 == 0)
  }

  predicate SpareBitsClear(v: seq<sextet>) {
    v != [] ==> UnusedBitsClear(|v| % 4, v[|v| - 1])
  }

  lemma FourLess(n: nat)
    requires n >= 4
    ensures (n - 4) % 4 == n % 4
  {
  }

  lemma SextetsPackFew(p: sextet, q: sextet, r: sextet)
    ensures Sextets(Pack([p, q])) == [p, q] <==> q % 16 == 0
    ensures Sextets(Pack([p, q, r])) == [p, q, r] <==> r % 4 == 0
  {
    BitsBack(p, q, r, 0);
    assert Sextets([First8(p, q)]) == [High6(First8(p, q)), Middle6(First8(p, q), 0)];
  }

  lemma SextetsPackFour(p: sextet, q: sextet, r: sextet, s: sextet, rest: seq<sextet>)
    ensures Sextets(Pack([p, q, r, s] + rest)) == [p, q, r, s] + rest <==> Sextets(Pack(rest)) == rest
  {
    PackFour(p, q, r, s, rest);
    SextetsThree(First8(p, q), Second8(q, r), Third8(r, s), Pack(rest));
    BitsBack(p, q, r, s);
    SameTail([p, q, r, s], Sextets(Pack(rest)), rest);
  }

  lemma SpareBitsOfRest(v: seq<sextet>)
    requires |v| >= 4 && |v| % 4 != 1
    ensures |v[4..]| % 4 != 1 && (SpareBitsClear(v) <==> SpareBitsClear(v[4..]))
  {
    FourLess(|v|);
    if |v| == 4 {
      assert UnusedBitsClear(0, v[3]);
    } else {
      hide UnusedBitsClear;
      assert v[4..][|v| - 5] == v[|v| - 1];
    }
  }

  lemma {:induction false} SextetsPack(v: seq<sextet>)
    requires |v| % 4 != 1
    ensures Sextets(Pack(v)) == v <==> SpareBitsClear(v)
    decreases |v|
  {
    if |v| == 0 {
    } else if |v| < 4 {
      assert |v| % 4 == |v|;
      SextetsPackFew(v[0], v[1], v[|v| - 1]);
      assert |v| == 2 ==> v == [v[0], v[1]];
      assert |v| == 3 ==> v == [v[0], v[1], v[2]];
    } else {
      SpareBitsOfRest(v);
      SextetsPack(v[4..]);
      SextetsPackFour(v[0], v[1], v[2], v[3], v[4..]);
      assert v == [v[0], v[1], v[2], v[3]] + v[4..];
    }
  }

  lemma SameTail(a: seq<sextet>, t: seq<sextet>, u: seq<sextet>)
    ensures a + t == a + u <==> t == u
  {
    assert (a + t)[|a|..] == t && (a + u)[|a|..] == u;
  }

  lemma {:induction false} SymbolsValues(t: seq<byte>)
    requires Values(t).Some?
    ensures Symbols(Values(t).value) == t && WithoutLineBreaks(t) == t
    decreases |t|
  {
    if t != [] {
      SymbolsValues(t[1..]);
      SymbolRoundTrip(0, t[0]);
      assert Values(t).value[1..] == Values(t[1..]).value;
    }
  }

  lemma {:induction false} LineBreaksRemoved(t: seq<byte>)
    ensures WithoutLineBreaks(WithoutLineBreaks(t)) == WithoutLineBreaks(t)
    decreases |t|
  {
    if t != [] {
      LineBreaksRemoved(t[1..]);
      if t[0] != LINE_FEED && t[0] != CARRIAGE_RETURN {
        assert WithoutLineBreaks(t)[1..] == WithoutLineBreaks(t[1..]);
      }
    }
  }

  /** A text that decodes is the encoding of what it decodes to exactly when it has no line breaks and
      clear spare bits: the decoder also takes other texts for the same bytes. */
  lemma ReencodesWhenCanonical(t: seq<byte>)
    requires Decode(t).Some?
    ensures Encode(Decode(t).value) == t <==>
            WithoutLineBreaks(t) == t && SpareBitsClear(Values(WithoutLineBreaks(t)).value)
  {
    var v := Values(WithoutLineBreaks(t)).value;
    SextetsPack(v);
    SymbolsValues(WithoutLineBreaks(t));
    SymbolsInAlphabet(Sextets(Pack(v)));
    SymbolsInAlphabet(v);
  }

  /** Table 2 of RFC 4648. */
  lemma SymbolInTable(v: sextet)
    ensures v < 26 ==> Symbol(v) == 'A' as int + v
    ensures 26 <= v < 52 ==> Symbol(v) == 'a' as int + (v - 26)
    ensures 52 <= v < 62 ==> Symbol(v) == '0' as int + (v - 52)
    ensures v == 62 ==> Symbol(v) == '-' as int
    ensures v == 63 ==> Symbol(v) == '_' as int
  {
  }

  /** The groups are the six-bit digits of the number that the three bytes make. */
  lemma GroupsAreDigits(a: byte, b: byte, c: byte)
    ensures (a as int) * 0x1_0000 + (b as int) * 0x100 + c
         == High6(a) * 0x4_0000 + Middle6(a, b) * 0x1000 + Lower6(b, c) * 0x40 + Low6(c)
  {
  }

  /** Each three bytes, as one number of 24 bits, give the four symbols of its digits to base 64; a last group of
      one or two bytes is filled up with zero bits and gives two or three. */
  lemma EncodedByDigits(a: byte, b: byte, c: byte, rest: seq<byte>, p: sextet, q: sextet, r: sextet, s: sextet)
    requires (a as int) * 0x1_0000 + (b as int) * 0x100 + c == p * 0x4_0000 + q * 0x1000 + r * 0x40 + s
    ensures Encode([a, b, c] + rest) == [Symbol(p), Symbol(q), Symbol(r), Symbol(s)] + Encode(rest)
    ensures c == 0 ==> Encode([a, b]) == [Symbol(p), Symbol(q), Symbol(r)]
    ensures b == 0 && c == 0 ==> Encode([a]) == [Symbol(p), Symbol(q)]
  {
    GroupsAreDigits(a, b, c);
    assert p == High6(a) && q == Middle6(a, b) && r == Lower6(b, c) && s == Low6(c);
    hide Symbol, High6, Middle6, Lower6, Low6;
    SextetsThree(a, b, c, rest);
    SymbolsFour(p, q, r, s, Sextets(rest));
    SymbolsFour(p, q, r, s, []);
  }

  lemma SymbolsFour(p: sextet, q: sextet, r: sextet, s: sextet, rest: seq<sextet>)
    ensures Symbols([p, q, r, s] + rest) == [Symbol(p), Symbol(q), Symbol(r), Symbol(s)] + Symbols(rest)
    ensures Symbols([p, q, r]) == [Symbol(p), Symbol(q), Symbol(r)] && Symbols([p, q]) == [Symbol(p), Symbol(q)]
  {
    hide Symbol;
    assert Symbols([]) == [];
    assert [p, q, r, s] + rest == [p] + ([q] + ([r] + ([s] + rest)));
    SymbolsFirst(s, rest);
    SymbolsFirst(r, [s] + rest);
    SymbolsFirst(q, [r] + ([s] + rest));
    SymbolsFirst(p, [q] + ([r] + ([s] + rest)));
    assert [p, q] == [p] + [q] && [q, r] == [q] + [r] && [p, q, r] == [p] + [q, r];
    assert [q] + [] == [q] && [r] + [] == [r];
    SymbolsFirst(r, []);
    SymbolsFirst(q, [r]);
    SymbolsFirst(p, [q, r]);
    SymbolsFirst(q, []);
    SymbolsFirst(p, [q]);
  }

  lemma SymbolsFirst(p: sextet, rest: seq<sextet>)
    ensures Symbols([p] + rest) == [Symbol(p)] + Symbols(rest)
  {
    assert ([p] + rest)[1..] == rest;
  }
}
