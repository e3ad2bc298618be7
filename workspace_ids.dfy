/**
 * Identifier helpers of the workspace store (workspace.rs): the path-component sanitiser used
 * for every file name built from user input, the 64-bit FNV-1a hash, its 16-digit hexadecimal
 * rendering, and the collision-free id given to an atom imported from a markdown task.
 */
module WorkspaceIds {
  import opened Wrappers
  import opened Text

  // ---------------------------------------------------------------- sanitize_component

  /** The characters a sanitised path component may hold: ASCII letters, digits, '-' and '_'. */
  predicate SafeChar(c: char)
  {
    IsAsciiAlphanumeric(c) || c == '-' || c == '_'
  }

  /** One character of the sanitised text: kept when safe, '_' otherwise. */
  function SanitizeChar(c: char): (r: char)
    ensures SafeChar(r)
    ensures SafeChar(c) <==> r == c
  {
    if SafeChar(c) then c else '_'
  }

  /** Every character mapped through SanitizeChar. */
  function SanitizeChars(s: string): (r: string)
    ensures |r| == |s|
    ensures forall i :: 0 <= i < |s| ==> r[i] == SanitizeChar(s[i])
  {
    seq(|s|, i requires 0 <= i < |s| => SanitizeChar(s[i]))
  }

  /** The fallback component for an input with nothing safe left in it. */
  const FallbackComponent: string := "item"

  /** `sanitize_component`: unsafe characters become '_', then '_' is trimmed from both ends. */
  function SanitizeComponent(input: string): (r: string)
  {
    var cleaned := TrimChar(SanitizeChars(input), '_');
    if cleaned == [] then FallbackComponent else cleaned
  }

  /** A component the store can use as a file name as it is. */
  predicate IsCleanComponent(s: string)
  {
    s != [] && s[0] != '_' && s[|s| - 1] != '_' && forall i :: 0 <= i < |s| ==> SafeChar(s[i])
  }

  /** The sanitised component is non-empty, safe, and neither starts nor ends with '_'. */
  lemma SanitizeComponentIsClean(input: string)
    ensures IsCleanComponent(SanitizeComponent(input))
  {
    var mapped := SanitizeChars(input);
    var cleaned := TrimChar(mapped, '_');
    if cleaned == [] {
      FallbackIsClean();
    } else {
      TrimKeepsSafe(mapped);
      assert SanitizeComponent(input) == cleaned;
    }
  }

  /** The fallback "item" is itself a clean component. */
  lemma FallbackIsClean()
    ensures IsCleanComponent(FallbackComponent)
  {
    assert FallbackComponent == ['i', 't', 'e', 'm'];
  }

  /** Trimming '_' from a safe text leaves a safe text. */
  lemma TrimKeepsSafe(s: string)
    requires forall i :: 0 <= i < |s| ==> SafeChar(s[i])
    ensures var r := TrimChar(s, '_'); forall i :: 0 <= i < |r| ==> SafeChar(r[i])
  {
    TrimCharKeeps(s, '_', SafeChar);
  }

  /** A clean component is its own sanitised form. */
  lemma CleanComponentIsFixed(s: string)
    requires IsCleanComponent(s)
    ensures SanitizeComponent(s) == s
  {
    assert SanitizeChars(s) == s;
  }

  /** Sanitising twice is sanitising once. */
  lemma SanitizeComponentIdempotent(input: string)
    ensures SanitizeComponent(SanitizeComponent(input)) == SanitizeComponent(input)
  {
    SanitizeComponentIsClean(input);
    CleanComponentIsFixed(SanitizeComponent(input));
  }

  /** Only inputs with no letter or digit fall back to "item". */
  lemma SanitizeComponentFallback(input: string)
    ensures (forall i :: 0 <= i < |input| ==> !IsAsciiAlphanumeric(input[i]) && input[i] != '-')
            ==> SanitizeComponent(input) == FallbackComponent
  {
    var mapped := SanitizeChars(input);
    if forall i :: 0 <= i < |input| ==> !IsAsciiAlphanumeric(input[i]) && input[i] != '-' {
      TrimCharStartAll(mapped, '_');
    }
  }

  /** Trimming a text made only of `c` leaves nothing. */
  lemma {:induction false} TrimCharStartAll(s: string, c: char)
    requires forall i :: 0 <= i < |s| ==> s[i] == c
    ensures TrimCharStart(s, c) == []
    decreases |s|
  {
    if s != [] {
      TrimCharStartAll(s[1..], c);
    }
  }

  /** The loop of `sanitize_component`, then the trim and the fallback. */
  method SanitizeComponentLoop(input: string) returns (r: string)
    ensures r == SanitizeComponent(input)
    ensures IsCleanComponent(r)
  {
    var out: string := [];
    var i := 0;
    while i < |input|
      invariant 0 <= i <= |input|
      invariant out == SanitizeChars(input[..i])
    {
      if SafeChar(input[i]) {
        out := out + [input[i]];
      } else {
        out := out + ['_'];
      }
      i := i + 1;
    }
    assert input[..i] == input;
    var cleaned := TrimChar(out, '_');
    if cleaned == [] {
      r := FallbackComponent;
    } else {
      r := cleaned;
    }
    SanitizeComponentIsClean(input);
  }

  // ---------------------------------------------------------------- stable_hash_64

  const FnvOffsetBasis: nat := 0xcbf2_9ce4_8422_2325
  const FnvPrime: nat := 0x0000_0100_0000_01b3
  /** 2^64: `u64` arithmetic wraps modulo this. */
  const U64Modulus: nat := 0x1_0000_0000_0000_0000

  /** The byte of an ASCII char (`str::as_bytes` on ASCII text). */
  function ByteOf(c: char): (b: nat)
    ensures b < 256
  {
    (c as int) % 256
  }

  /** Bitwise exclusive or of the lowest `bits` bits of `a` and `b`. */
  function XorBits(a: nat, b: nat, bits: nat): (r: nat)
    ensures r < Pow2(bits)
  {
    if bits == 0 then 0 else (a % 2 + b % 2) % 2 + 2 * XorBits(a / 2, b / 2, bits - 1)
  }

  function Pow2(bits: nat): (p: nat)
    ensures p >= 1
  {
    if bits == 0 then 1 else 2 * Pow2(bits - 1)
  }

  /**
   * One FNV-1a round on a 64-bit state: `hash ^= byte` (which only touches the low eight bits),
   * then `hash = hash.wrapping_mul(prime)`.
   */
  function FnvStep(hash: nat, c: char): (r: nat)
    ensures r < U64Modulus
  {
    var low := hash % 256;
    ((hash - low + XorBits(low, ByteOf(c), 8)) * FnvPrime) % U64Modulus
  }

  /** 64-bit FNV-1a of the text, folded from the left. */
  function Fnv1a(s: string): (r: nat)
    ensures r < U64Modulus
    decreases |s|
  {
    if s == [] then FnvOffsetBasis else FnvStep(Fnv1a(s[..|s| - 1]), s[|s| - 1])
  }

  /** The low byte of the offset basis xor the byte of 'a'. */
  lemma FnvFirstByteOfA()
    ensures FnvOffsetBasis % 256 == 0x25 && ByteOf('a') == 0x61
    ensures XorBits(0x25, 0x61, 8) == 0x44
  {
    assert XorBits(0x0, 0x0, 1) == 0;
    assert XorBits(0x0, 0x1, 2) == 1;
    assert XorBits(0x1, 0x3, 3) == 2;
    assert XorBits(0x2, 0x6, 4) == 4;
    assert XorBits(0x4, 0xc, 5) == 8;
    assert XorBits(0x9, 0x18, 6) == 0x11;
    assert XorBits(0x12, 0x30, 7) == 0x22;
  }

  /** Published FNV-1a 64 test vectors: the empty text hashes to the offset basis, "a" as below. */
  lemma Fnv1aTestVectors()
    ensures Fnv1a("") == 0xcbf2_9ce4_8422_2325
    ensures Fnv1a("a") == 0xaf63_dc4c_8601_ec8c
  {
    assert "a"[..0] == "";
    calc {
      Fnv1a("a");
      FnvStep(FnvOffsetBasis, 'a');
      { FnvFirstByteOfA(); }
      ((0xcbf2_9ce4_8422_2325 - 0x25 + 0x44) * 0x0000_0100_0000_01b3) % 0x1_0000_0000_0000_0000;
      0xaf63_dc4c_8601_ec8c;
    }
  }

  /** `stable_hash_64`: the byte loop with wrapping multiplication. */
  method StableHash64(input: string) returns (hash: nat)
    ensures hash == Fnv1a(input)
  {
    hash := FnvOffsetBasis;
    var i := 0;
    while i < |input|
      invariant 0 <= i <= |input|
      invariant hash == Fnv1a(input[..i])
    {
      assert input[..i + 1][..i] == input[..i];
      assert Fnv1a(input[..i + 1]) == FnvStep(hash, input[i]);
      var low := hash % 256;
      hash := hash - low + XorBits(low, ByteOf(input[i]), 8);
      hash := (hash * FnvPrime) % U64Modulus;
      i := i + 1;
    }
    assert input[..i] == input;
  }

  // ---------------------------------------------------------------- {:016x}

  function HexChar(d: nat): (c: char)
    requires d < 16
  {
    if d < 10 then ('0' as int + d) as char else ('a' as int + d - 10) as char
  }

  predicate IsHexChar(c: char)
  {
    '0' <= c <= '9' || 'a' <= c <= 'f'
  }

  function HexCharValue(c: char): (d: nat)
    requires IsHexChar(c)
    ensures d < 16
  {
    if c <= '9' then c as int - '0' as int else c as int - 'a' as int + 10
  }

  function Pow16(w: nat): (p: nat)
    ensures p >= 1
  {
    if w == 0 then 1 else 16 * Pow16(w - 1)
  }

  /** The lowest `width` hexadecimal digits of `n`, most significant first, zero-padded. */
  function HexDigits(n: nat, width: nat): (r: string)
    ensures |r| == width
    ensures forall i :: 0 <= i < |r| ==> IsHexChar(r[i])
  {
    if width == 0 then [] else HexDigits(n / 16, width - 1) + [HexChar(n % 16)]
  }

  /** The number a run of lowercase hexadecimal digits denotes. */
  function HexValue(s: string): (n: nat)
    requires forall i :: 0 <= i < |s| ==> IsHexChar(s[i])
  {
    if s == [] then 0 else HexValue(s[..|s| - 1]) * 16 + HexCharValue(s[|s| - 1])
  }

  /** Reading the digits back gives the number modulo 16^width. */
  lemma {:induction false} HexDigitsValue(n: nat, width: nat)
    ensures HexValue(HexDigits(n, width)) == n % Pow16(width)
  {
    if width > 0 {
      var s := HexDigits(n, width);
      assert s[..|s| - 1] == HexDigits(n / 16, width - 1);
      HexDigitsValue(n / 16, width - 1);
      ModPow16(n, width);
    }
  }

  lemma ModPow16(n: nat, width: nat)
    requires width > 0
    ensures n % Pow16(width) == (n / 16) % Pow16(width - 1) * 16 + n % 16
  {
    var p := Pow16(width - 1);
    var q := n / 16;
    var d := n % 16;
    var a := q / p;
    var b := q % p;
    assert n == (16 * p) * a + (16 * b + d) by {
      assert n == 16 * q + d;
      assert q == a * p + b;
    }
    ModUnique(n, 16 * p, a, 16 * b + d);
  }

  /** Euclidean division is unique: a quotient and an in-range remainder are the ones `/` and `%` give. */
  lemma ModUnique(n: int, m: int, a: int, r: int)
    requires m > 0 && 0 <= r < m && n == m * a + r
    ensures n % m == r
  {
    var a' := n / m;
    var r' := n % m;
    assert m * (a - a') == r' - r;
    if a > a' {
      assert m * (a - a') >= m by { MulAtLeast(m, a - a'); }
    } else if a < a' {
      assert m * (a' - a) >= m by { MulAtLeast(m, a' - a); }
    }
  }

  lemma MulAtLeast(m: int, k: int)
    requires m > 0 && k >= 1
    ensures m * k >= m
  {
  }

  /** `format!("{:016x}", h)`. */
  function Hex16(h: nat): (r: string)
    ensures |r| == 16
  {
    HexDigits(h, 16)
  }

  lemma Pow16Of16()
    ensures Pow16(16) == U64Modulus
  {
    assert Pow16(4) == 0x1_0000;
    assert Pow16(8) == 0x1_0000_0000 by { assert Pow16(8) == 0x1_0000 * Pow16(4); }
    assert Pow16(12) == 0x1_0000_0000_0000 by { assert Pow16(12) == 0x1_0000 * Pow16(8); }
    assert Pow16(16) == 0x1_0000 * Pow16(12);
  }

  /** A number below 16^width reads back from its digits unchanged. */
  lemma HexDigitsRoundTrip(n: nat, width: nat)
    requires n < Pow16(width)
    ensures HexValue(HexDigits(n, width)) == n
  {
    HexDigitsValue(n, width);
    ModUnique(n, Pow16(width), 0, n);
  }

  /** Distinct 64-bit hashes render as distinct sixteen-digit texts. */
  lemma Hex16Injective(a: nat, b: nat)
    requires a < U64Modulus && b < U64Modulus
    ensures Hex16(a) == Hex16(b) ==> a == b
  {
    Pow16Of16();
    HexDigitsRoundTrip(a, 16);
    HexDigitsRoundTrip(b, 16);
  }

  // ---------------------------------------------------------------- next_imported_atom_id

  /** The id an import of `sourceRef` tries first. */
  function ImportBaseId(sourceRef: string): (r: string)
    ensures |r| == 28
  {
    "atom_import_" + Hex16(Fnv1a(sourceRef))
  }

  /** The `n`-th fallback id, `base_n`. */
  function SuffixedId(base: string, n: nat): (r: string)
  {
    base + "_" + NatToString(n)
  }

  /** Distinct suffixes give distinct ids. */
  lemma SuffixedIdInjective(base: string, j: nat, n: nat)
    requires SuffixedId(base, j) == SuffixedId(base, n)
    ensures j == n
  {
    var sj := SuffixedId(base, j);
    assert sj[|base| + 1..] == NatToString(j);
    assert SuffixedId(base, n)[|base| + 1..] == NatToString(n);
    NatToStringValue(j);
    NatToStringValue(n);
  }

  /** The fallback ids `base_1` .. `base_n`. */
  function TriedIds(base: string, n: nat): (r: set<string>)
    ensures forall j :: 1 <= j <= n ==> SuffixedId(base, j) in r
  {
    if n == 0 then {} else TriedIds(base, n - 1) + {SuffixedId(base, n)}
  }

  lemma {:induction false} TriedIdsCount(base: string, n: nat)
    ensures |TriedIds(base, n)| == n
  {
    if n > 0 {
      TriedIdsCount(base, n - 1);
      if SuffixedId(base, n) in TriedIds(base, n - 1) {
        var j := TriedIdsMember(base, n - 1, SuffixedId(base, n));
        SuffixedIdInjective(base, j, n);
      }
    }
  }

  lemma {:induction false} TriedIdsMember(base: string, n: nat, id: string) returns (j: nat)
    requires id in TriedIds(base, n)
    ensures 1 <= j <= n && id == SuffixedId(base, j)
  {
    if id == SuffixedId(base, n) {
      j := n;
    } else {
      j := TriedIdsMember(base, n - 1, id);
    }
  }

  lemma SubsetCardinality(a: set<string>, b: set<string>)
    requires a <= b
    ensures |a| <= |b|
  {
    assert b == a + (b - a);
    assert a * (b - a) == {};
  }

  /**
   * `next_imported_atom_id`: the base id when unused, otherwise the first `base_N` (N >= 1)
   * not yet taken. The result is never one of the existing ids.
   */
  method NextImportedAtomId(sourceRef: string, existing: set<string>) returns (r: string)
    ensures r !in existing
    ensures ImportBaseId(sourceRef) !in existing ==> r == ImportBaseId(sourceRef)
    ensures ImportBaseId(sourceRef) in existing ==>
              exists n :: n >= 1 && r == SuffixedId(ImportBaseId(sourceRef), n)
                && forall j :: 1 <= j < n ==> SuffixedId(ImportBaseId(sourceRef), j) in existing
  {
    var hash := StableHash64(sourceRef);
    var base := "atom_import_" + Hex16(hash);
    assert base == ImportBaseId(sourceRef);
    if base !in existing {
      return base;
    }
    var idx := 1;
    while true
      invariant idx >= 1
      invariant forall j :: 1 <= j < idx ==> SuffixedId(base, j) in existing
      decreases |existing| + 1 - idx
    {
      assert TriedIds(base, idx - 1) <= existing by {
        forall id | id in TriedIds(base, idx - 1) ensures id in existing {
          var j := TriedIdsMember(base, idx - 1, id);
        }
      }
      var candidate := base + "_" + NatToString(idx);
      assert candidate == SuffixedId(base, idx);
      if candidate !in existing {
        return candidate;
      }
      assert TriedIds(base, idx) <= existing by {
        forall id | id in TriedIds(base, idx) ensures id in existing {
          var j := TriedIdsMember(base, idx, id);
        }
      }
      TriedIdsCount(base, idx);
      SubsetCardinality(TriedIds(base, idx), existing);
      idx := idx + 1;
    }
  }
}
