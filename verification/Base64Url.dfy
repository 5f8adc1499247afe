// The controller's own base64url encoder (RFC 4648 section 5, without padding), and the PKCE check
// built on it (RFC 7636 section 4.6).
module Base64Url {
  import opened Wrappers

  type Byte = b: int | 0 <= b < 0x100 witness 0
  type Sextet = s: int | 0 <= s < 64 witness 0

  const UPPER := "ABCDEFGHIJKLMNOPQRSTUVWXYZ"
  const LOWER := "abcdefghijklmnopqrstuvwxyz"
  const DIGITS := "0123456789"
  const ENC_TABLE := UPPER + LOWER + DIGITS + "-_"

  // The URL-safe alphabet of RFC 4648, table 2, read backwards.
  function Value(c: char): Option<Sextet> {
    if 'A' <= c <= 'Z' then Some((c - 'A') as int)
    else if 'a' <= c <= 'z' then Some((c - 'a') as int + 26)
    else if '0' <= c <= '9' then Some((c - '0') as int + 52)
    else if c == '-' then Some(62)
    else if c == '_' then Some(63)
    else None
  }

  // A table of 64 symbols with its inverse. The proofs about encoding and decoding hold for every one.
  datatype Code = Code(table: string, value: char -> Option<Sextet>)

  ghost predicate IsCode(c: Code) {
    && |c.table| == 64
    && (forall s: Sextet :: c.value(c.table[s]) == Some(s))
    && forall x: char :: c.value(x).Some? ==> c.table[c.value(x).value] == x
  }

  const UrlSafe := Code(ENC_TABLE, c => Value(c))

  lemma Letters()
    ensures forall i :: 0 <= i < 26 ==> UPPER[i] == 'A' + i as char
    ensures forall i :: 0 <= i < 26 ==> LOWER[i] == 'a' + i as char
    ensures forall i :: 0 <= i < 10 ==> DIGITS[i] == '0' + i as char
  {
  }

  lemma SymbolValue(s: Sextet)
    ensures |ENC_TABLE| == 64 && Value(ENC_TABLE[s]) == Some(s)
  {
    Letters();
  }

  lemma SymbolOf(x: char)
    requires Value(x).Some?
    ensures |ENC_TABLE| == 64 && ENC_TABLE[Value(x).value] == x
  {
    Letters();
  }

  lemma UrlSafeIsCode()
    ensures IsCode(UrlSafe)
  {
    SymbolValue(0);
    forall s: Sextet ensures UrlSafe.value(UrlSafe.table[s]) == Some(s) {
      SymbolValue(s);
    }
    forall x: char | UrlSafe.value(x).Some? ensures UrlSafe.table[UrlSafe.value(x).value] == x {
      SymbolOf(x);
    }
  }

  // Bytes past the end read as zero.
  function ByteOr0(b: seq<Byte>, i: nat): Byte {
    if i < |b| then b[i] else 0
  }

  // The i-th six bits of three bytes, and the i-th byte back from its two sextets.
  function Cut(b0: Byte, b1: Byte, b2: Byte, i: nat): Sextet {
    if i == 0 then b0 / 4
    else if i == 1 then b0 % 4 * 16 + b1 / 16
    else if i == 2 then b1 % 16 * 4 + b2 / 64
    else b2 % 64
  }

  function Join(hi: Sextet, lo: Sextet, i: nat): Byte {
    if i == 0 then hi * 4 + lo / 16
    else if i == 1 then hi % 16 * 16 + lo / 4
    else hi % 4 * 64 + lo
  }

  lemma JoinCut(b0: Byte, b1: Byte, b2: Byte)
    ensures Join(Cut(b0, b1, b2, 0), Cut(b0, b1, b2, 1), 0) == b0
    ensures Join(Cut(b0, b1, b2, 1), Cut(b0, b1, b2, 2), 1) == b1
    ensures Join(Cut(b0, b1, b2, 2), Cut(b0, b1, b2, 3), 2) == b2
  {
  }

  // The same in the q-th group of a byte string.
  function Sextets(b: seq<Byte>, q: nat, i: nat): Sextet {
    Cut(ByteOr0(b, 3 * q), ByteOr0(b, 3 * q + 1), ByteOr0(b, 3 * q + 2), i)
  }

  // Every six bits as one symbol; the last symbol is padded with zero bits.
  function Encode(c: Code, b: seq<Byte>): string
    requires |c.table| == 64
  {
    seq((4 * |b| + 2) / 3, k requires 0 <= k < (4 * |b| + 2) / 3 => c.table[Sextets(b, k / 4, k % 4)])
  }

  // A decoder for the same alphabet: every four symbols carry three bytes, and a tail of two or three
  // symbols one or two; a tail of one symbol or a foreign character is malformed.
  function Decode(c: Code, s: string): Option<seq<Byte>> {
    if |s| % 4 == 1 || exists x :: x in s && c.value(x) == None then None
    else Some(seq(|s| * 3 / 4, j requires 0 <= j < |s| * 3 / 4 => Bytes(c, s, j / 3, j % 3)))
  }

  function ValueOr0(c: Code, s: string, k: nat): Sextet {
    if k < |s| && c.value(s[k]).Some? then c.value(s[k]).value else 0
  }

  function Bytes(c: Code, s: string, q: nat, i: nat): Byte {
    Join(ValueOr0(c, s, 4 * q + i), ValueOr0(c, s, 4 * q + i + 1), i)
  }

  lemma EncodeShape(c: Code, b: seq<Byte>)
    requires IsCode(c)
    ensures |Encode(c, b)| == (4 * |b| + 2) / 3
    ensures forall x :: x in Encode(c, b) ==> c.value(x).Some?
  {
  }

  lemma EncodedValue(c: Code, b: seq<Byte>, q: nat, i: nat)
    requires IsCode(c) && i < 4 && 4 * q + i < (4 * |b| + 2) / 3
    ensures ValueOr0(c, Encode(c, b), 4 * q + i) == Sextets(b, q, i)
  {
    assert (4 * q + i) / 4 == q && (4 * q + i) % 4 == i;
  }

  lemma ByteBack(c: Code, b: seq<Byte>, q: nat, i: nat)
    requires IsCode(c) && 3 * q + i < |b| && i < 3
    ensures Bytes(c, Encode(c, b), q, i) == b[3 * q + i]
  {
    EncodedValue(c, b, q, i);
    EncodedValue(c, b, q, i + 1);
    JoinCut(ByteOr0(b, 3 * q), ByteOr0(b, 3 * q + 1), ByteOr0(b, 3 * q + 2));
  }

  lemma EncodedLength(n: nat)
    ensures (4 * n + 2) / 3 % 4 != 1
    ensures (4 * n + 2) / 3 * 3 / 4 == n
  {
    var q, r := n / 3, n % 3;
    assert (4 * n + 2) / 3 == 4 * q + if r == 0 then 0 else r + 1;
  }

  lemma RoundTrip(c: Code, b: seq<Byte>)
    requires IsCode(c)
    ensures Decode(c, Encode(c, b)) == Some(b)
  {
    var s := Encode(c, b);
    EncodeShape(c, b);
    EncodedLength(|b|);
    assert Decode(c, s).Some?;
    forall j | 0 <= j < |b| ensures Decode(c, s).value[j] == b[j] {
      ByteBack(c, b, j / 3, j % 3);
    }
    assert Decode(c, s).value == b;
  }

  // A full group has room in the encoding and in the destination.
  lemma GroupFits(n: nat, q: nat)
    ensures 3 * q + 3 <= n ==> 4 * q + 4 <= (4 * n + 2) / 3 && 4 * q + 4 <= (n + 2) / 3 * 4
    ensures n == 3 * q ==> (4 * n + 2) / 3 == 4 * q
    ensures n == 3 * q + 1 ==> (4 * n + 2) / 3 == 4 * q + 2 && (n + 2) / 3 * 4 == 4 * q + 4
    ensures n == 3 * q + 2 ==> (4 * n + 2) / 3 == 4 * q + 3 && (n + 2) / 3 * 4 == 4 * q + 4
  {
  }

  // --- The bits to spare ---

  // A tail of two symbols carries twelve bits for eight, and one of three eighteen for sixteen.
  predicate SpareBitsZero(c: Code, s: string) {
    && (|s| % 4 == 2 ==> ValueOr0(c, s, |s| - 1) % 16 == 0)
    && (|s| % 4 == 3 ==> ValueOr0(c, s, |s| - 1) % 4 == 0)
  }

  // The strict decoder of section 3.5 of RFC 4648 refuses any others.
  function DecodeStrict(c: Code, s: string): Option<seq<Byte>> {
    if SpareBitsZero(c, s) then Decode(c, s) else None
  }

  lemma LastSextet(b: seq<Byte>, q: nat)
    ensures |b| == 3 * q + 1 ==> Sextets(b, q, 1) % 16 == 0
    ensures |b| == 3 * q + 2 ==> Sextets(b, q, 2) % 4 == 0
  {
  }

  lemma EncodedSpareBits(c: Code, b: seq<Byte>)
    requires IsCode(c)
    ensures SpareBitsZero(c, Encode(c, b))
  {
    var q := |b| / 3;
    LastSextet(b, q);
    GroupFits(|b|, q);
    if |b| % 3 == 1 {
      assert |Encode(c, b)| == 4 * q + 2;
      EncodedValue(c, b, q, 1);
    } else if |b| % 3 == 2 {
      assert |Encode(c, b)| == 4 * q + 3;
      EncodedValue(c, b, q, 2);
    }
  }

  lemma CutJoin(v0: Sextet, v1: Sextet, v2: Sextet, v3: Sextet)
    ensures Cut(Join(v0, v1, 0), Join(v1, v2, 1), Join(v2, v3, 2), 0) == v0
    ensures Cut(Join(v0, v1, 0), Join(v1, v2, 1), Join(v2, v3, 2), 1) == v1
    ensures Cut(Join(v0, v1, 0), Join(v1, v2, 1), Join(v2, v3, 2), 2) == v2
    ensures Cut(Join(v0, v1, 0), Join(v1, v2, 1), Join(v2, v3, 2), 3) == v3
  {
  }

  // Past the decoded bytes the symbols say zero, as the encoder reads there.
  lemma BytesPastEnd(c: Code, s: string, q: nat, i: nat)
    requires i < 3 && |s| % 4 != 1 && SpareBitsZero(c, s) && |s| * 3 / 4 <= 3 * q + i
    ensures Bytes(c, s, q, i) == 0
  {
    var m := |s| / 4;
    if |s| % 4 == 0 {
      assert |s| * 3 / 4 == 3 * m;
    } else if |s| % 4 == 2 {
      assert |s| * 3 / 4 == 3 * m + 1;
    } else {
      assert |s| * 3 / 4 == 3 * m + 2;
    }
  }

  lemma DecodedByte(c: Code, s: string, q: nat, i: nat)
    requires i < 3 && DecodeStrict(c, s).Some?
    ensures ByteOr0(DecodeStrict(c, s).value, 3 * q + i) == Bytes(c, s, q, i)
  {
    if 3 * q + i < |s| * 3 / 4 {
      assert (3 * q + i) / 3 == q && (3 * q + i) % 3 == i;
    } else {
      BytesPastEnd(c, s, q, i);
    }
  }

  lemma DecodedSextet(c: Code, s: string, q: nat, i: nat)
    requires i < 4 && DecodeStrict(c, s).Some?
    ensures Sextets(DecodeStrict(c, s).value, q, i) == ValueOr0(c, s, 4 * q + i)
  {
    DecodedByte(c, s, q, 0);
    DecodedByte(c, s, q, 1);
    DecodedByte(c, s, q, 2);
    CutJoin(ValueOr0(c, s, 4 * q), ValueOr0(c, s, 4 * q + 1), ValueOr0(c, s, 4 * q + 2), ValueOr0(c, s, 4 * q + 3));
  }

  lemma Reencoded(c: Code, s: string)
    requires IsCode(c) && DecodeStrict(c, s).Some?
    ensures Encode(c, DecodeStrict(c, s).value) == s
  {
    var b := DecodeStrict(c, s).value;
    assert (4 * |b| + 2) / 3 == |s| by {
      var m, r := |s| / 4, |s| % 4;
      assert |b| == 3 * m + if r == 0 then 0 else r - 1;
    }
    forall k | 0 <= k < |s| ensures Encode(c, b)[k] == s[k] {
      DecodedSextet(c, s, k / 4, k % 4);
      assert s[k] in s;
    }
  }

  // A string is the encoding of the bytes exactly when the strict decoder reads them from it: there is one
  // encoding, and its spare bits are zero.
  lemma EncodeIffDecodeStrict(c: Code, s: string, b: seq<Byte>)
    requires IsCode(c)
    ensures s == Encode(c, b) <==> DecodeStrict(c, s) == Some(b)
  {
    RoundTrip(c, b);
    EncodedSpareBits(c, b);
    if DecodeStrict(c, s).Some? {
      Reencoded(c, s);
    }
  }

  // Four sextets packed into one number come back by shifting and masking.
  lemma Shifts(a: Sextet, b: Sextet, c: Sextet, d: Sextet, val: int)
    requires val == a * 0x4_0000 + b * 0x1000 + c * 0x40 + d
    ensures val / 0x4_0000 % 64 == a
    ensures val / 0x1000 % 64 == b
    ensures val / 0x40 % 64 == c
    ensures val % 64 == d
  {
    assert val / 0x40 == a * 0x1000 + b * 0x40 + c;
    assert val / 0x1000 == a * 0x40 + b;
    assert val / 0x4_0000 == a;
  }

  // The packed bytes of a group.
  lemma GroupShifts(b: seq<Byte>, q: nat)
    ensures var val: int := ByteOr0(b, 3 * q) * 0x1_0000 + ByteOr0(b, 3 * q + 1) * 0x100 + ByteOr0(b, 3 * q + 2);
      && val / 0x4_0000 % 64 == Sextets(b, q, 0)
      && val / 0x1000 % 64 == Sextets(b, q, 1)
      && val / 0x40 % 64 == Sextets(b, q, 2)
      && val % 64 == Sextets(b, q, 3)
  {
    var val: int := ByteOr0(b, 3 * q) * 0x1_0000 + ByteOr0(b, 3 * q + 1) * 0x100 + ByteOr0(b, 3 * q + 2);
    Shifts(Sextets(b, q, 0), Sextets(b, q, 1), Sextets(b, q, 2), Sextets(b, q, 3), val);
  }

  // The i-th six bits of a packed group.
  function Extract(val: nat, i: nat): Sextet {
    if i == 0 then val / 0x4_0000 % 64
    else if i == 1 then val / 0x1000 % 64
    else if i == 2 then val / 0x40 % 64
    else val % 64
  }

  // The string e holds, from position at, the first count symbols of the packed group val.
  ghost predicate Packed(table: string, e: string, at: nat, val: nat, count: nat) {
    |table| == 64 && count <= 4 && at + count <= |e|
    && forall i: nat :: i < count ==> e[at + i] == table[Extract(val, i)]
  }

  lemma EncodePacked(c: Code, b: seq<Byte>, q: nat, val: int, count: nat)
    requires |c.table| == 64 && count <= 4 && 4 * q + count <= (4 * |b| + 2) / 3
    requires val == ByteOr0(b, 3 * q) * 0x1_0000 + ByteOr0(b, 3 * q + 1) * 0x100 + ByteOr0(b, 3 * q + 2)
    ensures val >= 0 && Packed(c.table, Encode(c, b), 4 * q, val, count)
  {
    GroupShifts(b, q);
    forall i: nat | i < count ensures Encode(c, b)[4 * q + i] == c.table[Extract(val, i)] {
      assert (4 * q + i) / 4 == q && (4 * q + i) % 4 == i;
    }
  }

  // Writes the first two, three or four symbols of a packed group.
  method WriteGroup(table: string, dst: array<char>, di: nat, val: nat, count: nat, ghost e: string)
    requires 2 <= count && Packed(table, e, di, val, count)
    requires di + count <= dst.Length && dst[..di] == e[..di]
    modifies dst
    ensures dst[..di + count] == e[..di + count]
  {
    assert dst[..di] == e[..di];
    dst[di + 0] := table[val / 0x4_0000 % 64];
    dst[di + 1] := table[val / 0x1000 % 64];
    if count > 2 {
      dst[di + 2] := table[val / 0x40 % 64];
    }
    if count > 3 {
      dst[di + 3] := table[val % 64];
    }
    assert e[di + 0] == table[Extract(val, 0)] && e[di + 1] == table[Extract(val, 1)];
    assert count > 2 ==> e[di + 2] == table[Extract(val, 2)];
    assert count > 3 ==> e[di + 3] == table[Extract(val, 3)];
    forall k | 0 <= k < di + count ensures dst[k] == e[k] {
      if k < di {
        assert dst[..di][k] == e[..di][k];
      } else {
        assert k == di + 0 || k == di + 1 || k == di + 2 || k == di + 3;
      }
    }
  }

  // The encoder's loop: the destination is allocated for full groups and cut to what was written.
  method EncodeWith(c: Code, b: seq<Byte>) returns (s: string)
    requires |c.table| == 64
    ensures s == Encode(c, b)
  {
    ghost var e := Encode(c, b);
    var n := |b|;
    var dst := new char[(n + 2) / 3 * 4];
    var di, si := 0, 0;
    var n2 := n - n % 3;
    ghost var q := 0;
    while si < n2
      invariant 0 <= si <= n2 && si == 3 * q && di == 4 * q
      invariant di <= |e| && dst[..di] == e[..di]
    {
      var b0: int, b1: int, b2: int := b[si], b[si + 1], b[si + 2];
      var val := b0 * 0x1_0000 + b1 * 0x100 + b2;
      GroupFits(n, q);
      EncodePacked(c, b, q, val, 4);
      WriteGroup(c.table, dst, di, val, 4, e);
      si := si + 3;
      di := di + 4;
      q := q + 1;
    }
    var rem := n - n2;
    GroupFits(n, q);
    if rem == 2 {
      var b0: int, b1: int := b[si], b[si + 1];
      var val := b0 * 0x1_0000 + b1 * 0x100;
      EncodePacked(c, b, q, val, 3);
      WriteGroup(c.table, dst, di, val, 3, e);
      di := di + 3;
    } else if rem == 1 {
      var b0: int := b[si];
      var val := b0 * 0x1_0000;
      EncodePacked(c, b, q, val, 2);
      WriteGroup(c.table, dst, di, val, 2, e);
      di := di + 2;
    }
    s := dst[..di];
  }

  method EncodeBase64URL(b: seq<Byte>) returns (s: string)
    ensures s == Encode(UrlSafe, b)
  {
    s := EncodeWith(UrlSafe, b);
  }

  // The encoder as the program uses it.
  lemma UrlSafeEncoding(a: seq<Byte>, b: seq<Byte>)
    ensures Decode(UrlSafe, Encode(UrlSafe, a)) == Some(a) && DecodeStrict(UrlSafe, Encode(UrlSafe, a)) == Some(a)
    ensures |Encode(UrlSafe, a)| == (4 * |a| + 2) / 3
    ensures forall x :: x in Encode(UrlSafe, a) ==> Value(x).Some?
    ensures Encode(UrlSafe, a) == Encode(UrlSafe, b) <==> a == b
  {
    UrlSafeIsCode();
    EncodeIffDecodeStrict(UrlSafe, Encode(UrlSafe, a), a);
    RoundTrip(UrlSafe, a);
    RoundTrip(UrlSafe, b);
    EncodeShape(UrlSafe, a);
  }

  // So a string is what the program makes of some bytes exactly when the strict decoder reads them from it.
  lemma UrlSafeExact(s: string, b: seq<Byte>)
    ensures s == Encode(UrlSafe, b) <==> DecodeStrict(UrlSafe, s) == Some(b)
  {
    UrlSafeIsCode();
    EncodeIffDecodeStrict(UrlSafe, s, b);
  }

  // The first test vectors of section 10 of RFC 4648, without their padding.
  lemma KnownVectors()
    ensures Encode(UrlSafe, [0x66]) == "Zg"
    ensures Encode(UrlSafe, [0x66, 0x6f]) == "Zm8"
    ensures Encode(UrlSafe, [0x66, 0x6f, 0x6f]) == "Zm9v"
  {
    SymbolOf('Z');
    SymbolOf('g');
    SymbolOf('m');
    SymbolOf('8');
    SymbolOf('9');
    SymbolOf('v');
    OneByte(UrlSafe, 0x66);
    TwoBytes(UrlSafe, 0x66, 0x6f);
    ThreeBytes(UrlSafe, 0x66, 0x6f, 0x6f);
  }

  lemma OneByte(c: Code, x: Byte)
    requires |c.table| == 64
    ensures Encode(c, [x]) == [c.table[x / 4], c.table[x % 4 * 16]]
  {
  }

  lemma TwoBytes(c: Code, x: Byte, y: Byte)
    requires |c.table| == 64
    ensures Encode(c, [x, y]) == [c.table[x / 4], c.table[x % 4 * 16 + y / 16], c.table[y % 16 * 4]]
  {
  }

  lemma ThreeBytes(c: Code, x: Byte, y: Byte, z: Byte)
    requires |c.table| == 64
    ensures Encode(c, [x, y, z])
         == [c.table[x / 4], c.table[x % 4 * 16 + y / 16], c.table[y % 16 * 4 + z / 64], c.table[z % 64]]
  {
  }

  // --- PKCE ---

  // The token endpoint's check; sha stands for SHA-256.
  predicate PkceAccepts(sha: seq<Byte> -> seq<Byte>, challenge: string, verifier: seq<Byte>) {
    challenge == "" || Encode(UrlSafe, sha(verifier)) == challenge
  }

  // A challenge derived from a verifier is met by exactly the verifiers with the same hash.
  lemma PkceSound(sha: seq<Byte> -> seq<Byte>, original: seq<Byte>, verifier: seq<Byte>)
    requires sha(original) != []
    ensures PkceAccepts(sha, Encode(UrlSafe, sha(original)), verifier) <==> sha(verifier) == sha(original)
  {
    UrlSafeEncoding(sha(verifier), sha(original));
    UrlSafeEncoding(sha(original), sha(verifier));
  }
}
