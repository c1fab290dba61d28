/** Backup codes: six random bytes each, written in base32 (section 6 of RFC 4648) without padding.
    Every code issued passes as a backup code, and different bytes give different codes. */
module BackupCodes {
  import opened Domain
  import opened Strings
  import opened Store
  import F = Flows

  type Byte = b: nat | b < 256

  // ---- Base32 ----

  function ShiftRight(b: nat, n: nat): nat {
    if n == 0 then b else ShiftRight(b, n - 1) / 2
  }

  /** Bit `j` of a byte, the first bit being the highest. */
  function BitOf(b: Byte, j: nat): (v: nat)
    requires j < 8
    ensures v < 2
  {
    ShiftRight(b, 7 - j) % 2
  }

  /** Bit `k` of the input; zeros follow its end. */
  function Bit(buf: seq<Byte>, k: nat): (v: nat)
    ensures v < 2
  {
    if k / 8 < |buf| then BitOf(buf[k / 8], k % 8) else 0
  }

  /** Five bits, as a number below 32. */
  function Quintet(buf: seq<Byte>, i: nat): (q: nat)
    ensures q < 32
  {
    var k := 5 * i;
    16 * Bit(buf, k) + 8 * Bit(buf, k + 1) + 4 * Bit(buf, k + 2) + 2 * Bit(buf, k + 3) + Bit(buf, k + 4)
  }

  /** The alphabet: A to Z, then 2 to 7. */
  function Digit(q: nat): char
    requires q < 32
  {
    if q < 26 then ('A' as int + q) as char else ('2' as int + (q - 26)) as char
  }

  function Base32Length(bytes: nat): nat {
    (8 * bytes + 4) / 5
  }

  function Base32(buf: seq<Byte>): string {
    seq(Base32Length(|buf|), i requires 0 <= i < Base32Length(|buf|) => Digit(Quintet(buf, i)))
  }

  // ---- Different bytes, different codes ----

  function Pow2(n: nat): nat {
    if n == 0 then 1 else 2 * Pow2(n - 1)
  }

  lemma {:induction false} ShiftedIsSmall(b: nat, n: nat, width: nat)
    requires n <= width && b < Pow2(width)
    ensures ShiftRight(b, n) < Pow2(width - n)
  {
    if n > 0 {
      ShiftedIsSmall(b, n - 1, width);
      assert Pow2(width - n + 1) == 2 * Pow2(width - n);
    }
  }

  lemma {:induction false} SameBitsSameShift(a: Byte, b: Byte, n: nat)
    requires n <= 8 && forall j :: 0 <= j < 8 ==> BitOf(a, j) == BitOf(b, j)
    ensures ShiftRight(a, n) == ShiftRight(b, n)
    decreases 8 - n
  {
    if n == 8 {
      assert Pow2(4) == 16 && Pow2(8) == 256;
      ShiftedIsSmall(a, 8, 8);
      ShiftedIsSmall(b, 8, 8);
    } else {
      SameBitsSameShift(a, b, n + 1);
      assert BitOf(a, 7 - n) == BitOf(b, 7 - n);
    }
  }

  lemma FiveBits(a0: nat, a1: nat, a2: nat, a3: nat, a4: nat, b0: nat, b1: nat, b2: nat, b3: nat, b4: nat)
    requires a0 < 2 && a1 < 2 && a2 < 2 && a3 < 2 && a4 < 2 && b0 < 2 && b1 < 2 && b2 < 2 && b3 < 2 && b4 < 2
    requires 16 * a0 + 8 * a1 + 4 * a2 + 2 * a3 + a4 == 16 * b0 + 8 * b1 + 4 * b2 + 2 * b3 + b4
    ensures a0 == b0 && a1 == b1 && a2 == b2 && a3 == b3 && a4 == b4
  {
  }

  lemma SameQuintetSameBits(a: seq<Byte>, b: seq<Byte>, i: nat, r: nat)
    requires Quintet(a, i) == Quintet(b, i) && r < 5
    ensures Bit(a, 5 * i + r) == Bit(b, 5 * i + r)
  {
    FiveBits(Bit(a, 5 * i), Bit(a, 5 * i + 1), Bit(a, 5 * i + 2), Bit(a, 5 * i + 3), Bit(a, 5 * i + 4),
             Bit(b, 5 * i), Bit(b, 5 * i + 1), Bit(b, 5 * i + 2), Bit(b, 5 * i + 3), Bit(b, 5 * i + 4));
    assert r == 0 || r == 1 || r == 2 || r == 3 || r == 4;
  }

  lemma SameCodeSameBit(a: seq<Byte>, b: seq<Byte>, k: nat)
    requires Base32(a) == Base32(b) && k < 8 * |a|
    ensures Bit(a, k) == Bit(b, k)
  {
    var i := k / 5;
    assert Digit(Quintet(a, i)) == Base32(a)[i] == Base32(b)[i] == Digit(Quintet(b, i));
    SameQuintetSameBits(a, b, i, k % 5);
  }

  lemma SameBitsSameByte(a: seq<Byte>, b: seq<Byte>, m: nat)
    requires m < |a| == |b|
    requires forall k :: 8 * m <= k < 8 * m + 8 ==> Bit(a, k) == Bit(b, k)
    ensures a[m] == b[m]
  {
    forall j | 0 <= j < 8
      ensures BitOf(a[m], j) == BitOf(b[m], j)
    {
      assert Bit(a, 8 * m + j) == Bit(b, 8 * m + j);
    }
    SameBitsSameShift(a[m], b[m], 0);
  }

  /** Nothing is lost: inputs of one length with the same code are the same bytes. */
  lemma Base32IsInjective(a: seq<Byte>, b: seq<Byte>)
    requires |a| == |b| && Base32(a) == Base32(b)
    ensures a == b
  {
    forall m | 0 <= m < |a|
      ensures a[m] == b[m]
    {
      forall k | 8 * m <= k < 8 * m + 8
        ensures Bit(a, k) == Bit(b, k)
      {
        SameCodeSameBit(a, b, k);
      }
      SameBitsSameByte(a, b, m);
    }
  }

  // ---- What a code says ----

  predicate IsCodeChar(c: char) {
    'A' <= c <= 'Z' || '2' <= c <= '7'
  }

  /** The number that a character of a code stands for. */
  function DigitValue(c: char): int {
    if 'A' <= c <= 'Z' then c as int - 'A' as int else 26 + (c as int - '2' as int)
  }

  /** The first `n` characters, read as a number in base 32. */
  function CodeValue(code: string, n: nat): int
    requires n <= |code|
  {
    if n == 0 then 0 else 32 * CodeValue(code, n - 1) + DigitValue(code[n - 1])
  }

  /** The first `n` bytes, read as a number, the first byte being the highest. */
  function BytesValue(buf: seq<Byte>, n: nat): int
    requires n <= |buf|
  {
    if n == 0 then 0 else 256 * BytesValue(buf, n - 1) + buf[n - 1]
  }

  /** The first `n` bits of the input, and zeros after its end, read as a number. */
  function BitsValue(buf: seq<Byte>, n: nat): int {
    if n == 0 then 0 else 2 * BitsValue(buf, n - 1) + Bit(buf, n - 1)
  }

  lemma FiveMoreBits(buf: seq<Byte>, k: nat)
    ensures BitsValue(buf, k + 5) == 32 * BitsValue(buf, k) +
            16 * Bit(buf, k) + 8 * Bit(buf, k + 1) + 4 * Bit(buf, k + 2) + 2 * Bit(buf, k + 3) + Bit(buf, k + 4)
  {
    assert BitsValue(buf, k + 1) == 2 * BitsValue(buf, k) + Bit(buf, k);
    assert BitsValue(buf, k + 2) == 2 * BitsValue(buf, k + 1) + Bit(buf, k + 1);
    assert BitsValue(buf, k + 3) == 2 * BitsValue(buf, k + 2) + Bit(buf, k + 2);
    assert BitsValue(buf, k + 4) == 2 * BitsValue(buf, k + 3) + Bit(buf, k + 3);
    assert BitsValue(buf, k + 5) == 2 * BitsValue(buf, k + 4) + Bit(buf, k + 4);
  }

  lemma DigitIsBack(buf: seq<Byte>, i: nat)
    requires i < Base32Length(|buf|)
    ensures |Base32(buf)| == Base32Length(|buf|) && IsCodeChar(Base32(buf)[i])
    ensures DigitValue(Base32(buf)[i]) == Quintet(buf, i)
  {
  }

  /** Character `i` stands for the five bits from position 5 * i on. */
  predicate Spells(buf: seq<Byte>, c: char, i: nat) {
    DigitValue(c) == Quintet(buf, i)
  }

  lemma OneMoreCharacter(buf: seq<Byte>, c: char, i: nat, k: nat)
    requires Spells(buf, c, i) && k == 5 * i
    ensures BitsValue(buf, k + 5) == 32 * BitsValue(buf, k) + DigitValue(c)
  {
    FiveMoreBits(buf, k);
  }

  lemma {:induction false} CodeIsBits(buf: seq<Byte>, code: string, n: nat, k: nat)
    requires n <= |code| && k == 5 * n && forall i :: 0 <= i < n ==> Spells(buf, code[i], i)
    ensures CodeValue(code, n) == BitsValue(buf, k)
  {
    if n > 0 {
      CodeIsBits(buf, code, n - 1, k - 5);
      OneMoreCharacter(buf, code[n - 1], n - 1, k - 5);
    }
  }

  /** `v` followed by `n` zero bits. */
  function ShiftLeft(v: int, n: nat): int {
    if n == 0 then v else 2 * ShiftLeft(v, n - 1)
  }

  lemma ShiftByEight(v: int)
    ensures ShiftLeft(v, 8) == 256 * v
  {
    assert ShiftLeft(v, 1) == 2 * v;
    assert ShiftLeft(v, 2) == 4 * v;
    assert ShiftLeft(v, 3) == 8 * v;
    assert ShiftLeft(v, 4) == 16 * v;
    assert ShiftLeft(v, 5) == 32 * v;
    assert ShiftLeft(v, 6) == 64 * v;
    assert ShiftLeft(v, 7) == 128 * v;
  }

  /** Up to bit `j` of byte `m`: the bits before, and what a shift to the right leaves of the byte. */
  lemma {:induction false} BitsOfByte(buf: seq<Byte>, m: nat, j: nat)
    requires m < |buf| && j <= 8
    ensures BitsValue(buf, 8 * m + j) == ShiftLeft(BitsValue(buf, 8 * m), j) + ShiftRight(buf[m], 8 - j)
  {
    if j == 0 {
      assert Pow2(4) == 16 && Pow2(8) == 256;
      ShiftedIsSmall(buf[m], 8, 8);
    } else {
      BitsOfByte(buf, m, j - 1);
      assert Bit(buf, 8 * m + (j - 1)) == BitOf(buf[m], j - 1);
    }
  }

  lemma {:induction false} BytesAreBits(buf: seq<Byte>, m: nat)
    requires m <= |buf|
    ensures BytesValue(buf, m) == BitsValue(buf, 8 * m)
  {
    if m > 0 {
      BytesAreBits(buf, m - 1);
      BitsOfByte(buf, m - 1, 8);
      ShiftByEight(BitsValue(buf, 8 * (m - 1)));
    }
  }

  lemma {:induction false} ZeroBits(buf: seq<Byte>, n: nat)
    ensures BitsValue(buf, 8 * |buf| + n) == ShiftLeft(BitsValue(buf, 8 * |buf|), n)
  {
    if n > 0 {
      ZeroBits(buf, n - 1);
    }
  }

  lemma CharactersSpell(buf: seq<Byte>)
    ensures var code := Base32(buf);
            && |code| == Base32Length(|buf|)
            && forall i :: 0 <= i < |code| ==> IsCodeChar(code[i]) && Spells(buf, code[i], i)
  {
    forall i | 0 <= i < Base32Length(|buf|)
      ensures IsCodeChar(Base32(buf)[i]) && Spells(buf, Base32(buf)[i], i)
    {
      DigitIsBack(buf, i);
    }
  }

  lemma SpelledBytes(buf: seq<Byte>, code: string, fill: nat)
    requires 5 * |code| == 8 * |buf| + fill && forall i :: 0 <= i < |code| ==> Spells(buf, code[i], i)
    ensures CodeValue(code, |code|) == ShiftLeft(BytesValue(buf, |buf|), fill)
  {
    CodeIsBits(buf, code, |code|, 5 * |code|);
    BytesAreBits(buf, |buf|);
    ZeroBits(buf, fill);
  }

  /** What base32 promises: over the alphabet A to Z, 2 to 7 a code is, read as a number in base 32, the
      number that the bytes make, followed by the fewest zero bits that fill up the last character. */
  lemma CodeSpellsTheBytes(buf: seq<Byte>)
    ensures var code := Base32(buf);
            var fill := 5 * |code| - 8 * |buf|;
            && 0 <= fill < 5 && CodeValue(code, |code|) == ShiftLeft(BytesValue(buf, |buf|), fill)
            && forall i :: 0 <= i < |code| ==> IsCodeChar(code[i])
  {
    CharactersSpell(buf);
    SpelledBytes(buf, Base32(buf), 5 * Base32Length(|buf|) - 8 * |buf|);
  }

  // ---- Generation ----

  predicate Buffers(random: seq<seq<Byte>>) {
    forall i :: 0 <= i < |random| ==> |random[i]| == 6
  }

  /** `random` is what the random source delivers, buffer after buffer, until it fails. */
  method GenerateBackupCodes(n: int, random: seq<seq<Byte>>) returns (r: Result<seq<string>>)
    requires Buffers(random)
    ensures var count := if n <= 0 then 8 else n;
            && (r.Ok? <==> |random| >= count)
            && (r.Ok? ==> |r.value| == count && forall i :: 0 <= i < count ==> r.value[i] == Base32(random[i]))
            && (r.Err? ==> r.error == Internal)
  {
    var count := if n <= 0 then 8 else n;
    var codes := [];
    for i := 0 to count
      invariant |codes| == i <= |random|
      invariant forall j :: 0 <= j < i ==> codes[j] == Base32(random[j])
    {
      if i == |random| {
        return Err(Internal);
      }
      codes := codes + [Base32(random[i])];
    }
    return Ok(codes);
  }

  // ---- Every issued code works ----

  predicate IsBackupCode(code: string) {
    |code| == 10 && forall i :: 0 <= i < |code| ==> IsCodeChar(code[i])
  }

  lemma SixBytesMakeACode(buf: seq<Byte>)
    requires |buf| == 6
    ensures IsBackupCode(Base32(buf))
  {
  }

  /** Trimming and upper-casing leave a code alone, and it is never taken for a TOTP code. */
  lemma CodesAreNormal(code: string)
    requires IsBackupCode(code)
    ensures F.NormalCode(code) == code && code != "" && !IsTOTPShape(code)
  {
    assert ToUpper(code) == code;
    assert !IsSpace(code[0]) && !IsSpace(code[9]);
  }

  /** A code found among the hashes of a list of codes: the first that is equal. */
  lemma FoundAmong(codes: seq<string>, salts: seq<nat>, k: nat)
    requires |salts| == |codes| && k < |codes|
    ensures var at := F.FindCode(F.HashCodes(codes, salts), codes[k]);
            at.Some? && at.value <= k && codes[at.value] == codes[k]
  {
    assert BcryptMatches(F.HashCodes(codes, salts)[k], codes[k]);
  }

  /** Right after an enrolment, whatever the TOTP library would say, each returned code, typed in any
      way that trims and upper-cases to it, is accepted; the enrolment is confirmed and exactly the
      hash of that code is gone. */
  lemma IssuedCodeWorks(db: Tables, subj: Subject, secret: Text, random: seq<seq<Byte>>, codes: seq<string>,
                        salts: seq<nat>,
                        k: nat, typed: string, totp: F.TotpAnswer, now: Time)
    requires |salts| == |codes| == |random| && k < |codes| && Buffers(random)
    requires forall i :: 0 <= i < |codes| ==> codes[i] == Base32(random[i])
    requires F.AccountExists(db, subj) && F.NormalCode(typed) == codes[k]
    ensures var (enrolled, issued) := F.Enroll2FA(db, subj, secret, codes, salts);
            var (after, r) := F.Verify2FA(enrolled, subj, typed, totp, now);
            var hashes := F.HashCodes(codes, salts);
            && issued == Ok(codes) && r == Ok(())
            && (exists at :: 0 <= at <= k && random[at] == random[k]
                  && GetTwoFA(after, subj) == Some(TwoFA(secret, Without(hashes, hashes[at], |hashes|), Some(now))))
  {
    SixBytesMakeACode(random[k]);
    CodesAreNormal(codes[k]);
    FoundAmong(codes, salts, k);
    var hashes := F.HashCodes(codes, salts);
    var at := F.FindCode(hashes, codes[k]).value;
    Base32IsInjective(random[at], random[k]);
    var (enrolled, issued) := F.Enroll2FA(db, subj, secret, codes, salts);
    assert GetTwoFA(enrolled, subj) == Some(TwoFA(secret, hashes, None));
    var consumed := ConsumeBackupCode(enrolled, subj, hashes[at]);
    assert GetTwoFA(consumed, subj) == Some(TwoFA(secret, Without(hashes, hashes[at], |hashes|), None));
  }
}
