/** `b64tohex`: a four-state machine that regroups the six-bit values of a base64 text into four-bit
    values, against base64 encoding (sections 4 and 8 of RFC 4648: alphabet, padding, base16). */
module B64Hex {
  import opened Common

  // ----- Bit operators on naturals

  function BitOr(a: nat, b: nat): nat
    decreases a + b
  {
    if a == 0 then b else if b == 0 then a
    else 2 * BitOr(a / 2, b / 2) + if a % 2 == 1 || b % 2 == 1 then 1 else 0
  }

  function BitAnd(a: nat, b: nat): nat
    decreases a + b
  {
    if a == 0 || b == 0 then 0
    else 2 * BitAnd(a / 2, b / 2) + if a % 2 == 1 && b % 2 == 1 then 1 else 0
  }

  /** `c<<2 | x` for a two-bit x. */
  lemma {:induction false} OrJoins(c: nat, x: nat)
    requires x < 4
    ensures BitOr(4 * c, x) == 4 * c + x
  {
    if c > 0 && x > 0 {
      assert (4 * c) / 2 == 2 * c && (2 * c) / 2 == c;
      if x / 2 > 0 {
        assert BitOr(2 * c, x / 2) == 2 * BitOr(c, 0) + (x / 2) % 2;
      }
    }
  }

  lemma {:induction false} AndOdd(m: nat, v: nat)
    ensures BitAnd(2 * m + 1, v) == 2 * BitAnd(m, v / 2) + v % 2
  {
    assert (2 * m + 1) / 2 == m && (2 * m + 1) % 2 == 1;
  }

  /** `3 & v` and `15 & v`. */
  lemma {:induction false} AndMasks(v: nat)
    ensures BitAnd(3, v) == v % 4 && BitAnd(15, v) == v % 16
  {
    AndOdd(7, v);
    AndOdd(3, v / 2);
    AndOdd(1, v / 4);
    AndOdd(0, v / 8);
    AndOdd(1, v);
    AndOdd(0, v / 2);
    assert v / 2 / 2 == v / 4 && v / 4 / 2 == v / 8;
    LowBits(v, 2);
    LowBits(v, 4);
    LowBits(v, 8);
  }

  /** The lowest bits of `v`, one bit at a time. */
  lemma {:induction false} LowBits(v: nat, d: nat)
    requires d == 2 || d == 4 || d == 8
    ensures v % (2 * d) == d * (v / d % 2) + v % d
  {
  }

  /** `mask & v` for the masks 3 and 15. */
  method Masked(mask: nat, v: nat) returns (r: nat)
    requires mask == 3 || mask == 15
    ensures r == v % (mask + 1)
  {
    AndMasks(v);
    r := BitAnd(mask, v);
  }

  /** `c<<2 | v>>4`. */
  method Joined(c: nat, v: nat) returns (r: nat)
    requires v < 64
    ensures r == 4 * c + v / 16
  {
    OrJoins(c, v / 16);
    r := BitOr(4 * c, v / 16);
  }

  // ----- Alphabets

  /** Table 1 of RFC 4648, the string `b64map`. */
  function B64Char(v: nat): char
    requires v < 64
  {
    if v < 26 then 'A' + v as char
    else if v < 52 then 'a' + (v - 26) as char
    else if v < 62 then '0' + (v - 52) as char
    else if v == 62 then '+' else '/'
  }

  /** `strings.Index(b64map, m)`: -1 for a character that is not in the map. */
  function B64Value(ch: char): int {
    if 'A' <= ch <= 'Z' then (ch - 'A') as int
    else if 'a' <= ch <= 'z' then (ch - 'a') as int + 26
    else if '0' <= ch <= '9' then (ch - '0') as int + 52
    else if ch == '+' then 62 else if ch == '/' then 63 else -1
  }

  predicate InAlphabet(ch: char) {
    ch == '=' || B64Value(ch) >= 0
  }

  predicate HexDigit(ch: char) {
    '0' <= ch <= '9' || 'a' <= ch <= 'f'
  }

  /** `int2char`: `BI_RM` has 36 characters. */
  function Int2Char(a: nat): (ch: char)
    requires a < 36
    ensures a < 16 ==> HexDigit(ch)
  {
    if a < 10 then '0' + a as char else 'a' + (a - 10) as char
  }

  // ----- The machine, on numbers

  type Sextet = x: int | 0 <= x < 64

  type Nibble = x: int | 0 <= x < 16

  /** Output so far, state and carry. */
  datatype Machine = Machine(d: seq<Nibble>, e: nat, c: Nibble)

  predicate Sane(m: Machine) {
    m.e < 4 && (m.e == 1 || m.e == 3 ==> m.c < 4)
  }

  /** One turn of the loop, in plain arithmetic. */
  function Turn(m: Machine, v: Sextet): (m': Machine)
    requires Sane(m)
    ensures Sane(m')
  {
    if m.e == 0 then Machine(m.d + [v / 4], 1, v % 4)
    else if m.e == 1 then Machine(m.d + [4 * m.c + v / 16], 2, v % 16)
    else if m.e == 2 then Machine(m.d + [m.c, v / 4], 3, v % 4)
    else Machine(m.d + [4 * m.c + v / 16, v % 16], 0, m.c)
  }

  function Turns(m: Machine, vs: seq<Sextet>): (m': Machine)
    requires Sane(m)
    ensures Sane(m')
  {
    if vs == [] then m else Turn(Turns(m, vs[..|vs| - 1]), vs[|vs| - 1])
  }

  function Finished(m: Machine): seq<Nibble>
    requires Sane(m)
  {
    if m.e == 1 then m.d + [4 * m.c] else m.d
  }

  const INITIAL := Machine([], 0, 0)

  lemma {:induction false} TurnsSnoc(m: Machine, vs: seq<Sextet>, v: Sextet)
    requires Sane(m)
    ensures Turns(m, vs + [v]) == Turn(Turns(m, vs), v)
  {
    assert (vs + [v])[..|vs|] == vs;
  }

  // ----- The loop, on text

  predicate AllInAlphabet(a: string) {
    forall i :: 0 <= i < |a| ==> InAlphabet(a[i])
  }

  /** The values of a base64 text; padding has none. */
  function Sextets(a: string): seq<Sextet>
    requires AllInAlphabet(a)
  {
    if a == [] then []
    else
      var n := |a| - 1;
      if a[n] == '=' then Sextets(a[..n]) else Sextets(a[..n]) + [B64Value(a[n])]
  }

  function HexText(ns: seq<Nibble>): (d: string)
    ensures |d| == |ns|
  {
    if ns == [] then "" else HexText(ns[..|ns| - 1]) + [Int2Char(ns[|ns| - 1])]
  }

  lemma {:induction false} HexTextSnoc(ns: seq<Nibble>, n: Nibble)
    ensures HexText(ns + [n]) == HexText(ns) + [Int2Char(n)]
  {
    assert (ns + [n])[..|ns|] == ns;
  }

  lemma {:induction false} HexTextTwo(ns: seq<Nibble>, n: Nibble, n': Nibble)
    ensures HexText(ns + [n, n']) == HexText(ns) + [Int2Char(n)] + [Int2Char(n')]
  {
    HexTextSnoc(ns, n);
    HexTextSnoc(ns + [n], n');
    assert ns + [n] + [n'] == ns + [n, n'];
  }

  /** What the loop adds to `d` for value `v` in state `e`, written with the bit operators: one digit in
      the first two states ... */
  method TurnOne(d: string, e: nat, c: Nibble, v: Sextet, ghost m: Machine)
    returns (d': string, e': nat, c': Nibble)
    requires Sane(m) && d == HexText(m.d) && e == m.e < 2 && c == m.c
    ensures d' == HexText(Turn(m, v).d) && e' == Turn(m, v).e && c' == Turn(m, v).c
  {
    if e == 0 {
      e' := 1;
      d' := d + [Int2Char(v / 4)];
      c' := Masked(3, v);
      HexTextSnoc(m.d, v / 4);
    } else {
      e' := 2;
      var x := Joined(c, v);
      d' := d + [Int2Char(x)];
      c' := Masked(15, v);
      HexTextSnoc(m.d, x);
    }
  }

  /** ... and two in the others. */
  method TurnTwo(d: string, e: nat, c: Nibble, v: Sextet, ghost m: Machine)
    returns (d': string, e': nat, c': Nibble)
    requires Sane(m) && d == HexText(m.d) && e == m.e >= 2 && c == m.c
    ensures d' == HexText(Turn(m, v).d) && e' == Turn(m, v).e && c' == Turn(m, v).c
  {
    c' := c;
    if e == 2 {
      e' := 3;
      d' := d + [Int2Char(c)];
      d' := d' + [Int2Char(v / 4)];
      c' := Masked(3, v);
      HexTextTwo(m.d, c, v / 4);
    } else {
      e' := 0;
      var x := Joined(c, v);
      d' := d + [Int2Char(x)];
      var y := Masked(15, v);
      d' := d' + [Int2Char(y)];
      HexTextTwo(m.d, x, y);
    }
  }

  /** `c << 2 | v >> 4` also for the value -1 of a character that is not in the map: all its bits are set. */
  function OrAny(a: nat, b: int): int
    requires b >= -1
  {
    if b == -1 then -1 else BitOr(a, b)
  }

  /** The indices that a turn in state `e` with carry `c` looks up with `int2char`. */
  function Indices(e: nat, c: nat, v: int): seq<int>
    requires -1 <= v < 64
  {
    if e == 0 then [v / 4]
    else if e == 1 then [OrAny(4 * c, v / 16)]
    else if e == 2 then [c, v / 4]
    else [OrAny(4 * c, v / 16), if v == -1 then 15 else BitAnd(15, v)]
  }

  /** With a value of the alphabet every index is below 16, and they are the digits of the turn. */
  lemma {:induction false} IndicesBelow16(m: Machine, v: Sextet)
    requires Sane(m)
    ensures Turn(m, v).d == m.d + Indices(m.e, m.c, v)
    ensures forall i :: 0 <= i < |Indices(m.e, m.c, v)| ==> 0 <= Indices(m.e, m.c, v)[i] < 16
  {
    OrJoins(m.c, v / 16);
    AndMasks(v);
  }

  /** With any other character one of them is -1, and Go panics. */
  lemma {:induction false} IndexPanics(e: nat, c: nat)
    ensures -1 in Indices(e, c, -1)
  {
    assert Indices(e, c, -1)[if e == 2 then 1 else 0] == -1;
  }

  /** The values of a text with one more character. */
  lemma {:induction false} SextetsSnoc(a: string, i: nat)
    requires i < |a| && AllInAlphabet(a[..i])
    ensures AllInAlphabet(a[..i + 1]) <==> InAlphabet(a[i])
    ensures InAlphabet(a[i]) ==>
      Sextets(a[..i + 1]) == if a[i] == '=' then Sextets(a[..i]) else Sextets(a[..i]) + [B64Value(a[i])]
  {
    var b := a[..i + 1];
    assert b[..i] == a[..i] && b[i] == a[i];
    assert forall j :: 0 <= j < i ==> b[j] == a[..i][j];
  }

  /** `b64tohex`; None is the index panic of `int2char`. */
  method B64ToHex(a: string) returns (r: Option<string>)
    ensures r.None? <==> !AllInAlphabet(a)
    ensures r.Some? ==> r.value == HexText(Finished(Turns(INITIAL, Sextets(a))))
  {
    var d := "";
    var e: nat, c: Nibble := 0, 0;
    ghost var m := INITIAL;
    for i := 0 to |a|
      invariant AllInAlphabet(a[..i])
      invariant m == Turns(INITIAL, Sextets(a[..i])) && d == HexText(m.d) && e == m.e && c == m.c
    {
      SextetsSnoc(a, i);
      if a[i] != '=' {
        var v := B64Value(a[i]);
        if v == -1 {
          IndexPanics(e, c);
          return None;
        }
        TurnsSnoc(INITIAL, Sextets(a[..i]), v);
        if e < 2 {
          d, e, c := TurnOne(d, e, c, v, m);
        } else {
          d, e, c := TurnTwo(d, e, c, v, m);
        }
        m := Turn(m, v);
      }
    }
    assert a[..|a|] == a;
    if e == 1 {
      d := d + [Int2Char(4 * c)];
      HexTextSnoc(m.d, 4 * c);
    }
    r := Some(d);
  }

  // ----- Base64 and base16

  /** The sextets of a byte sequence (section 4 of RFC 4648), without padding. */
  function SixBits(b: seq<Byte>): seq<Sextet> {
    if |b| == 0 then []
    else if |b| == 1 then [b[0] / 4, b[0] % 4 * 16]
    else if |b| == 2 then [b[0] / 4, b[0] % 4 * 16 + b[1] / 16, b[1] % 16 * 4]
    else [b[0] / 4, b[0] % 4 * 16 + b[1] / 16, b[1] % 16 * 4 + b[2] / 64, b[2] % 64] + SixBits(b[3..])
  }

  function Chars(vs: seq<Sextet>): (a: string)
    ensures |a| == |vs|
  {
    if vs == [] then "" else Chars(vs[..|vs| - 1]) + [B64Char(vs[|vs| - 1])]
  }

  /** Standard base64 with padding to a multiple of four characters. */
  function Base64(b: seq<Byte>): string {
    Chars(SixBits(b)) + if |b| % 3 == 1 then "==" else if |b| % 3 == 2 then "=" else ""
  }

  function FourBits(b: seq<Byte>): seq<Nibble> {
    if b == [] then [] else [b[0] / 16, b[0] % 16] + FourBits(b[1..])
  }

  /** Lower-case base16 (section 8 of RFC 4648). */
  function Base16(b: seq<Byte>): string {
    HexText(FourBits(b))
  }

  lemma {:induction false} ValueOfChar(v: Sextet)
    ensures B64Value(B64Char(v)) == v && B64Char(v) != '='
  {
  }

  lemma {:induction false} SextetsOfChars(vs: seq<Sextet>)
    ensures AllInAlphabet(Chars(vs)) && Sextets(Chars(vs)) == vs
  {
    if vs != [] {
      var n := |vs| - 1;
      SextetsOfChars(vs[..n]);
      ValueOfChar(vs[n]);
      assert Chars(vs)[..n] == Chars(vs[..n]);
    }
  }

  lemma {:induction false} PaddingAddsNothing(a: string)
    requires AllInAlphabet(a)
    ensures AllInAlphabet(a + "=") && Sextets(a + "=") == Sextets(a)
  {
    assert (a + "=")[..|a|] == a;
  }

  lemma {:induction false} SextetsOfBase64(b: seq<Byte>)
    ensures AllInAlphabet(Base64(b)) && Sextets(Base64(b)) == SixBits(b)
  {
    var a := Chars(SixBits(b));
    SextetsOfChars(SixBits(b));
    if |b| % 3 == 1 {
      PaddingAddsNothing(a);
      PaddingAddsNothing(a + "=");
      Assoc(a, "=", "=");
      assert "=" + "=" == "==";
    } else if |b| % 3 == 2 {
      PaddingAddsNothing(a);
    } else {
      assert a + "" == a;
    }
  }

  lemma {:induction false} TurnsConcat(m: Machine, vs: seq<Sextet>, vs': seq<Sextet>)
    requires Sane(m)
    ensures Turns(m, vs + vs') == Turns(Turns(m, vs), vs')
  {
    if vs' == [] {
      assert vs + vs' == vs;
    } else {
      var n := |vs'| - 1;
      TurnsConcat(m, vs, vs'[..n]);
      assert (vs + vs')[..|vs| + n] == vs + vs'[..n];
    }
  }

  /** The bits of three bytes, grouped by six and by four. */
  lemma {:induction false} Regrouped(x: Byte, y: Byte, z: Byte)
    ensures x / 4 / 4 == x / 16 && 4 * (x / 4 % 4) + x % 4 == x % 16
    ensures (x % 4 * 16 + y / 16) / 16 == x % 4 && (x % 4 * 16 + y / 16) % 16 == y / 16
    ensures (y % 16 * 4 + z / 64) / 4 == y % 16 && (y % 16 * 4 + z / 64) % 4 == z / 64
    ensures 4 * (z / 64) + z % 64 / 16 == z / 16 && z % 64 % 16 == z % 16
  {
  }

  /** The first two values of a group give the digits of its first byte, the third one the second. */
  lemma {:induction false} FirstByte(m: Machine, x: Byte, y: Byte)
    requires Sane(m) && m.e == 0
    ensures Turns(m, [x / 4, x % 4 * 16 + y / 16]) == Machine(m.d + [x / 16, x % 16], 2, y / 16)
  {
    Regrouped(x, y, 0);
    var v, w := x / 4, x % 4 * 16 + y / 16;
    TurnsSnoc(m, [], v);
    TurnsSnoc(m, [v], w);
    assert [] + [v] == [v] && [v] + [w] == [v, w];
    assert m.d + [x / 16] + [x % 16] == m.d + [x / 16, x % 16];
  }

  lemma {:induction false} SecondByte(m: Machine, x: Byte, y: Byte, u: Sextet)
    requires Sane(m) && m.e == 0
    ensures Turns(m, [x / 4, x % 4 * 16 + y / 16, u]) == Machine(m.d + [x / 16, x % 16, y / 16, u / 4], 3, u % 4)
  {
    FirstByte(m, x, y);
    var v, w := x / 4, x % 4 * 16 + y / 16;
    TurnsSnoc(m, [v, w], u);
    assert [v, w] + [u] == [v, w, u];
    assert m.d + [x / 16, x % 16] + [y / 16, u / 4] == m.d + [x / 16, x % 16, y / 16, u / 4];
  }

  lemma {:induction false} ThirdByte(m: Machine, x: Byte, y: Byte, u: Sextet, t: Sextet)
    requires Sane(m) && m.e == 0
    ensures
      var m' := Turns(m, [x / 4, x % 4 * 16 + y / 16, u, t]);
      m'.e == 0 && m'.d == m.d + [x / 16, x % 16, y / 16, u / 4, 4 * (u % 4) + t / 16, t % 16]
  {
    SecondByte(m, x, y, u);
    var v, w := x / 4, x % 4 * 16 + y / 16;
    TurnsSnoc(m, [v, w, u], t);
    assert [v, w, u] + [t] == [v, w, u, t];
    assert m.d + [x / 16, x % 16, y / 16, u / 4] + [4 * (u % 4) + t / 16, t % 16]
        == m.d + [x / 16, x % 16, y / 16, u / 4, 4 * (u % 4) + t / 16, t % 16];
  }

  /** A whole group of three bytes. */
  lemma {:induction false} Group(m: Machine, x: Byte, y: Byte, z: Byte)
    requires Sane(m) && m.e == 0
    ensures
      var m' := Turns(m, [x / 4, x % 4 * 16 + y / 16, y % 16 * 4 + z / 64, z % 64]);
      m'.e == 0 && m'.d == m.d + [x / 16, x % 16, y / 16, y % 16, z / 16, z % 16]
  {
    ThirdByte(m, x, y, y % 16 * 4 + z / 64, z % 64);
    Regrouped(x, y, z);
  }

  lemma {:induction false} FourBitsConcat(x: Byte, b: seq<Byte>)
    ensures FourBits([x] + b) == [x / 16, x % 16] + FourBits(b)
  {
    assert ([x] + b)[1..] == b;
  }

  lemma {:induction false} FourBitsOfThree(x: Byte, y: Byte, z: Byte, rest: seq<Byte>)
    ensures FourBits([x]) == [x / 16, x % 16]
    ensures FourBits([x, y]) == [x / 16, x % 16, y / 16, y % 16]
    ensures FourBits([x, y, z] + rest) == [x / 16, x % 16, y / 16, y % 16, z / 16, z % 16] + FourBits(rest)
  {
    FourBitsConcat(x, []);
    FourBitsConcat(x, [y]);
    FourBitsConcat(y, []);
    FourBitsConcat(x, [y, z] + rest);
    FourBitsConcat(y, [z] + rest);
    FourBitsConcat(z, rest);
    assert [x] + [] == [x] && [y] + [] == [y] && [x] + [y] == [x, y];
    assert [x, y, z] + rest == [x] + ([y, z] + rest) && [y, z] + rest == [y] + ([z] + rest);
  }

  lemma {:induction false} LastGroup(m: Machine, b: seq<Byte>)
    requires Sane(m) && m.e == 0 && |b| < 3
    ensures Turns(m, SixBits(b)).e != 1 && Turns(m, SixBits(b)).d == m.d + FourBits(b)
  {
    if |b| == 2 {
      var x, y := b[0], b[1];
      SecondByte(m, x, y, y % 16 * 4);
      assert y % 16 * 4 / 4 == y % 16;
      FourBitsOfThree(x, y, 0, []);
      assert b == [x, y] && SixBits(b) == [x / 4, x % 4 * 16 + y / 16, y % 16 * 4];
    } else if |b| == 1 {
      var x := b[0];
      FirstByte(m, x, 0);
      FourBitsOfThree(x, 0, 0, []);
      assert b == [x] && SixBits(b) == [x / 4, x % 4 * 16 + 0 / 16];
    } else {
      assert m.d + [] == m.d;
    }
  }

  lemma {:induction false} FirstGroup(m: Machine, b: seq<Byte>) returns (four: seq<Sextet>)
    requires Sane(m) && m.e == 0 && |b| >= 3
    ensures SixBits(b) == four + SixBits(b[3..])
    ensures Turns(m, four).e == 0 && Turns(m, four).d + FourBits(b[3..]) == m.d + FourBits(b)
  {
    var x, y, z := b[0], b[1], b[2];
    four := [x / 4, x % 4 * 16 + y / 16, y % 16 * 4 + z / 64, z % 64];
    var six := [x / 16, x % 16, y / 16, y % 16, z / 16, z % 16];
    assert b == [x, y, z] + b[3..];
    FourBitsOfThree(x, y, z, b[3..]);
    Group(m, x, y, z);
    Assoc(m.d, six, FourBits(b[3..]));
  }

  lemma {:induction false} MachineDecodes(m: Machine, b: seq<Byte>)
    requires Sane(m) && m.e == 0
    ensures Turns(m, SixBits(b)).e != 1 && Turns(m, SixBits(b)).d == m.d + FourBits(b)
    decreases |b|
  {
    if |b| < 3 {
      LastGroup(m, b);
    } else {
      var four := FirstGroup(m, b);
      MachineDecodes(Turns(m, four), b[3..]);
      TurnsConcat(m, four, SixBits(b[3..]));
    }
  }

  /** For every byte sequence `b64tohex` of its padded base64 text is its lower-case hexadecimal text. */
  lemma {:induction false} DecodesThenHexes(b: seq<Byte>)
    ensures AllInAlphabet(Base64(b))
    ensures HexText(Finished(Turns(INITIAL, Sextets(Base64(b))))) == Base16(b)
  {
    SextetsOfBase64(b);
    MachineDecodes(INITIAL, b);
    assert [] + FourBits(b) == FourBits(b);
  }

  /** Every character `b64tohex` produces is a lower-case hexadecimal digit. */
  lemma {:induction false} OnlyHexDigits(ns: seq<Nibble>, i: nat)
    requires i < |ns|
    ensures HexDigit(HexText(ns)[i])
  {
    var n := |ns| - 1;
    if i < n {
      OnlyHexDigits(ns[..n], i);
    }
  }
}
