/**
 The base64 codec of the in-call media keys (crates/aqua-matrix-agent/src/rtc_keys.rs),
 standard alphabet (section 4 of RFC 4648). Encoding pads; decoding skips padding and
 ASCII whitespace wherever they stand. The shifts and disjoint ors of the original, on
 values below 2^24, are written as multiplications, divisions and sums.
 */
module Base64 {
  import opened Basics
  import Text

  type Sextet = n: nat | n < 64

  datatype Error = InvalidByte(c: Byte) | InvalidLength
  datatype Result<T> = Ok(value: T) | Err(error: Error)

  function Upper(): string { "ABCDEFGHIJKLMNOPQRSTUVWXYZ" }
  function Lower(): string { "abcdefghijklmnopqrstuvwxyz" }
  function Digits(): string { "0123456789" }
  const ALPHABET := Upper() + Lower() + Digits() + "+/"
  const PAD: Byte := '=' as int

  function Letter(v: Sextet): Byte {
    AlphabetCodes(v);
    ALPHABET[v] as int
  }

  /** The value of a letter of the alphabet. */
  function Value(c: Byte): Result<Sextet> {
    if 'A' as int <= c <= 'Z' as int then Ok(c - 'A' as int)
    else if 'a' as int <= c <= 'z' as int then Ok(c - 'a' as int + 26)
    else if '0' as int <= c <= '9' as int then Ok(c - '0' as int + 52)
    else if c == '+' as int then Ok(62)
    else if c == '/' as int then Ok(63)
    else Err(InvalidByte(c))
  }

  /** Space, tab, line feed, form feed and carriage return. */
  predicate IsAsciiWhitespace(c: Byte) {
    c == 32 || c == 9 || c == 10 || c == 12 || c == 13
  }

  predicate Skipped(c: Byte) { c == PAD || IsAsciiWhitespace(c) }

  /** What is skipped is the padding and, of the whitespace among the first 128 characters,
      all but the vertical tab. */
  lemma SkippedIs(c: Byte)
    ensures Skipped(c) <==> c as char == '=' || (c < 128 && Text.IsWhitespace(c as char) && c != 11)
  {
    Text.WhitespaceIs(c as char);
  }

  lemma UpperAt(v: nat)
    requires v < 26
    ensures |Upper()| == 26 && Upper()[v] as int == 65 + v
  {
  }

  lemma LowerAt(v: nat)
    requires v < 26
    ensures |Lower()| == 26 && Lower()[v] as int == 97 + v
  {
  }

  lemma DigitAt(v: nat)
    requires v < 10
    ensures |Digits()| == 10 && Digits()[v] as int == 48 + v
  {
  }

  lemma ConcatAt(a: string, b: string, c: string, d: string, v: nat)
    requires v < |a| + |b| + |c| + |d|
    ensures (a + b + c + d)[v] == if v < |a| then a[v] else if v < |a| + |b| then b[v - |a|]
                                  else if v < |a| + |b| + |c| then c[v - |a| - |b|] else d[v - |a| - |b| - |c|]
  {
  }

  lemma AlphabetCodes(v: Sextet)
    ensures |ALPHABET| == 64
    ensures ALPHABET[v] as int == if v < 26 then 65 + v else if v < 52 then 71 + v else if v < 62 then v - 4
                                  else if v == 62 then 43 else 47
  {
    hide Upper, Lower, Digits;
    UpperAt(v % 26);
    LowerAt((v + 26) % 26);
    DigitAt((v + 8) % 10);
    ConcatAt(Upper(), Lower(), Digits(), "+/", v);
  }

  /** `Value` inverts `Letter`, and no letter is skipped. */
  lemma LetterValue(v: Sextet)
    ensures Value(Letter(v)) == Ok(v) && !Skipped(Letter(v))
  {
    AlphabetCodes(v);
  }

  /** Whatever has a value is the letter of that value. */
  lemma ValueLetter(c: Byte)
    requires Value(c).Ok?
    ensures Letter(Value(c).value) == c && !Skipped(c)
  {
    AlphabetCodes(Value(c).value);
  }

  // -------------------------------------------------------------------------
  // Encoding
  // -------------------------------------------------------------------------

  /** The byte at `k`, zero beyond the end. */
  function At(chunk: seq<Byte>, k: nat): Byte { if k < |chunk| then chunk[k] else 0 }

  /** The sextets of a chunk of up to three bytes, the highest bits first. */
  function Sextets(chunk: seq<Byte>): seq<Sextet>
    requires 1 <= |chunk| <= 3
  {
    var n := At(chunk, 0) * 0x1_0000 + At(chunk, 1) * 0x100 + At(chunk, 2);
    [n / 0x4_0000 % 64, n / 0x1000 % 64, n / 0x40 % 64, n % 64][..|chunk| + 1]
  }

  function Letters(vs: seq<Sextet>): seq<Byte> { seq(|vs|, i requires 0 <= i < |vs| => Letter(vs[i])) }

  /** The four characters of a chunk, padded. */
  function Quad(chunk: seq<Byte>): seq<Byte>
    requires 1 <= |chunk| <= 3
  {
    Letters(Sextets(chunk)) + seq(3 - |chunk|, _ => PAD)
  }

  function Encoded(input: seq<Byte>): seq<Byte> {
    if |input| == 0 then []
    else if |input| <= 3 then Quad(input)
    else Quad(input[..3]) + Encoded(input[3..])
  }

  method Encode(input: seq<Byte>) returns (out: seq<Byte>)
    ensures out == Encoded(input)
  {
    hide Letter, Encoded, Quad;
    out := [];
    var i := 0;
    EncodedNothing(input);
    while i < |input|
      invariant 0 <= i <= |input| && out + Encoded(input[i..]) == Encoded(input)
    {
      var chunk := input[i..if i + 3 <= |input| then i + 3 else |input|];
      var n := At(chunk, 0) * 0x1_0000 + At(chunk, 1) * 0x100 + At(chunk, 2);
      var quad := [Letter(n / 0x4_0000 % 64), Letter(n / 0x1000 % 64),
                   if |chunk| > 1 then Letter(n / 0x40 % 64) else PAD,
                   if |chunk| > 2 then Letter(n % 64) else PAD];
      QuadIs(chunk, quad);
      EncodedStep(input, i, chunk);
      assert out + (quad + Encoded(input[i + |chunk|..])) == (out + quad) + Encoded(input[i + |chunk|..]);
      out := out + quad;
      i := i + |chunk|;
    }
    EncodedNothing(input);
  }

  lemma EncodedNothing(input: seq<Byte>)
    ensures [] + Encoded(input[0..]) == Encoded(input) && Encoded(input[|input|..]) == []
  {
    assert input[0..] == input;
  }

  lemma QuadIs(chunk: seq<Byte>, quad: seq<Byte>)
    requires 1 <= |chunk| <= 3
    requires var n := At(chunk, 0) * 0x1_0000 + At(chunk, 1) * 0x100 + At(chunk, 2);
             quad == [Letter(n / 0x4_0000 % 64), Letter(n / 0x1000 % 64),
                      if |chunk| > 1 then Letter(n / 0x40 % 64) else PAD,
                      if |chunk| > 2 then Letter(n % 64) else PAD]
    ensures quad == Quad(chunk)
  {
    hide Letter;
  }

  lemma EncodedStep(input: seq<Byte>, i: nat, chunk: seq<Byte>)
    requires i < |input| && chunk == input[i..if i + 3 <= |input| then i + 3 else |input|]
    ensures Encoded(input[i..]) == Quad(chunk) + Encoded(input[i + |chunk|..])
  {
    hide Quad;
    var rest := input[i..];
    if |rest| <= 3 {
      assert chunk == rest && input[i + |chunk|..] == [];
      assert Quad(chunk) + [] == Quad(chunk);
    } else {
      assert rest[..3] == chunk && rest[3..] == input[i + 3..];
    }
  }

  // -------------------------------------------------------------------------
  // Decoding
  // -------------------------------------------------------------------------

  /** The values of the significant characters, or the first character without one. */
  function Symbols(text: seq<Byte>): Result<seq<Sextet>> {
    if text == [] then Ok([])
    else if Skipped(text[0]) then Symbols(text[1..])
    else match Value(text[0])
      case Err(e) => Err(e)
      case Ok(v) => Before([v], Symbols(text[1..]))
  }

  function Before<T>(first: seq<T>, rest: Result<seq<T>>): Result<seq<T>> {
    match rest case Err(e) => Err(e) case Ok(vs) => Ok(first + vs)
  }

  /** The bytes of a group of two to four symbols. */
  function Triple(group: seq<Sextet>): seq<Byte>
    requires 2 <= |group| <= 4
  {
    var n := group[0] * 0x4_0000 + group[1] * 0x1000 + SymbolAt(group, 2) * 0x40 + SymbolAt(group, 3);
    [n / 0x1_0000 % 256, n / 0x100 % 256, n % 256][..|group| - 1]
  }

  function SymbolAt(group: seq<Sextet>, k: nat): Sextet { if k < |group| then group[k] else 0 }

  function Packed(syms: seq<Sextet>): Result<seq<Byte>> {
    if |syms| == 0 then Ok([])
    else if |syms| == 1 then Err(InvalidLength)
    else if |syms| <= 4 then Ok(Triple(syms))
    else Before(Triple(syms[..4]), Packed(syms[4..]))
  }

  function Decoded(text: seq<Byte>): Result<seq<Byte>> {
    match Symbols(text) case Err(e) => Err(e) case Ok(syms) => Packed(syms)
  }

  /** The significant characters, turned into symbols one by one. */
  method Collect(input: seq<Byte>) returns (r: Result<seq<Sextet>>)
    ensures r == Symbols(input)
  {
    hide Value, Skipped;
    var syms: seq<Sextet> := [];
    assert input[0..] == input;
    BeforeNothing(Symbols(input));
    for i := 0 to |input|
      invariant Symbols(input) == Before(syms, Symbols(input[i..]))
    {
      assert input[i..][0] == input[i] && input[i..][1..] == input[i + 1..];
      if !Skipped(input[i]) {
        match Value(input[i])
        case Err(e) =>
          return Err(e);
        case Ok(v) =>
          BeforeBefore(syms, [v], Symbols(input[i + 1..]));
          syms := syms + [v];
      }
    }
    assert input[|input|..] == [] && syms + [] == syms;
    r := Ok(syms);
  }

  method Decode(input: seq<Byte>) returns (r: Result<seq<Byte>>)
    ensures r == Decoded(input)
  {
    hide Triple, Symbols, Packed;
    var collected := Collect(input);
    match collected {
      case Err(e) =>
        r := Err(e);
      case Ok(syms) =>
        var out: seq<Byte> := [];
        var k := 0;
        assert syms[0..] == syms;
        BeforeNothing(Packed(syms));
        while k < |syms|
          invariant 0 <= k <= |syms| && Packed(syms) == Before(out, Packed(syms[k..]))
        {
          var group := syms[k..if k + 4 <= |syms| then k + 4 else |syms|];
          PackedStep(syms[k..], group);
          if |group| == 1 {
            return Err(InvalidLength);
          }
          assert syms[k..][|group|..] == syms[k + |group|..];
          BeforeBefore(out, Triple(group), Packed(syms[k + |group|..]));
          out := out + Triple(group);
          k := k + |group|;
        }
        assert syms[|syms|..] == [] && out + [] == out;
        PackedNothing();
        r := Ok(out);
    }
  }

  lemma BeforeNothing<T>(rest: Result<seq<T>>)
    ensures Before([], rest) == rest
  {
    if rest.Ok? {
      assert [] + rest.value == rest.value;
    }
  }

  lemma PackedNothing()
    ensures Packed([]) == Ok([])
  {
  }

  lemma BeforeBefore<T>(a: seq<T>, b: seq<T>, rest: Result<seq<T>>)
    ensures Before(a, Before(b, rest)) == Before(a + b, rest)
  {
    if rest.Ok? {
      assert a + (b + rest.value) == (a + b) + rest.value;
    }
  }

  lemma PackedStep(syms: seq<Sextet>, group: seq<Sextet>)
    requires syms != [] && group == syms[..if 4 <= |syms| then 4 else |syms|]
    ensures Packed(syms) == if |group| == 1 then Err(InvalidLength)
                            else Before(Triple(group), Packed(syms[|group|..]))
  {
    hide Triple;
    if |syms| <= 4 {
      assert group == syms;
      if |group| > 1 {
        assert Triple(group) + [] == Triple(group) && syms[|group|..] == [];
      }
    }
  }

  // -------------------------------------------------------------------------
  // The round trip
  // -------------------------------------------------------------------------

  /** The sextets of a whole input, without padding. */
  function AllSextets(input: seq<Byte>): seq<Sextet> {
    if |input| == 0 then []
    else if |input| <= 3 then Sextets(input)
    else Sextets(input[..3]) + AllSextets(input[3..])
  }

  lemma {:induction false} SymbolsConcat(a: seq<Byte>, b: seq<Byte>)
    ensures Symbols(a + b) == match Symbols(a) case Err(e) => Err(e) case Ok(vs) => Before(vs, Symbols(b))
  {
    hide Value, Skipped;
    if a == [] {
      assert a + b == b;
      BeforeNothing(Symbols(b));
    } else {
      assert (a + b)[0] == a[0] && (a + b)[1..] == a[1..] + b;
      SymbolsConcat(a[1..], b);
      if Value(a[0]).Ok? && Symbols(a[1..]).Ok? {
        BeforeBefore([Value(a[0]).value], Symbols(a[1..]).value, Symbols(b));
      }
    }
  }

  lemma {:induction false} SymbolsOfLetters(vs: seq<Sextet>)
    ensures Symbols(Letters(vs)) == Ok(vs)
  {
    hide Value, Letter, Skipped;
    if vs != [] {
      assert Letters(vs)[1..] == Letters(vs[1..]);
      SymbolsOfLetters(vs[1..]);
      LetterValue(vs[0]);
      assert [vs[0]] + vs[1..] == vs;
    }
  }

  lemma {:induction false} SymbolsOfSkipped(text: seq<Byte>)
    requires forall i :: 0 <= i < |text| ==> Skipped(text[i])
    ensures Symbols(text) == Ok([])
  {
    if text != [] {
      SymbolsOfSkipped(text[1..]);
    }
  }

  lemma {:induction false} SymbolsOfEncoded(input: seq<Byte>)
    ensures Symbols(Encoded(input)) == Ok(AllSextets(input))
  {
    hide Sextets, Letters, Skipped;
    if |input| > 0 {
      var chunk := if |input| <= 3 then input else input[..3];
      QuadSymbols(chunk);
      if |input| > 3 {
        SymbolsOfEncoded(input[3..]);
        SymbolsConcat(Quad(chunk), Encoded(input[3..]));
      }
    }
  }

  lemma QuadSymbols(chunk: seq<Byte>)
    requires 1 <= |chunk| <= 3
    ensures Symbols(Quad(chunk)) == Ok(Sextets(chunk))
  {
    hide Sextets, Letters, Symbols;
    var pads := seq(3 - |chunk|, _ => PAD);
    SymbolsOfLetters(Sextets(chunk));
    SymbolsOfSkipped(pads);
    SymbolsConcat(Letters(Sextets(chunk)), pads);
    assert Sextets(chunk) + [] == Sextets(chunk);
  }

  lemma TripleOfSextets(chunk: seq<Byte>)
    requires 1 <= |chunk| <= 3
    ensures |Sextets(chunk)| == |chunk| + 1 && Triple(Sextets(chunk)) == chunk
  {
    hide At;
    var a, b, c := At(chunk, 0), At(chunk, 1), At(chunk, 2);
    var group := Sextets(chunk);
    SextetsAre(chunk);
    AtChunk(chunk);
    TripleIs(group, a, b, c);
  }

  lemma AtChunk(chunk: seq<Byte>)
    requires 1 <= |chunk| <= 3
    ensures [At(chunk, 0), At(chunk, 1), At(chunk, 2)][..|chunk|] == chunk
    ensures |chunk| < 3 ==> At(chunk, 2) == 0
    ensures |chunk| < 2 ==> At(chunk, 1) == 0
  {
  }

  /** The quotient by a power of two that the shifts compute. */
  lemma Quotient(n: nat, d: nat, q: nat, r: nat)
    requires n == q * d + r && r < d
    ensures n / d == q && n % d == r
  {
    var (q1, r1) := (n / d, n % d);
    assert q1 * d + r1 == n;
    if q1 < q {
      Apart(q1, q, d);
    } else if q < q1 {
      Apart(q, q1, d);
    }
  }

  lemma {:induction false} Apart(x: nat, y: nat, d: nat)
    requires x < y
    ensures x * d + d <= y * d
  {
    OneMore(y - 1, d);
    if x + 1 < y {
      Apart(x, y - 1, d);
    }
  }

  lemma SextetValues(a: Byte, b: Byte, c: Byte)
    ensures var n: nat := a * 0x1_0000 + b * 0x100 + c;
            && n / 0x4_0000 % 64 == a / 4 && n / 0x1000 % 64 == a % 4 * 16 + b / 16
            && n / 0x40 % 64 == b % 16 * 4 + c / 64 && n % 64 == c % 64
  {
    var n: nat := a * 0x1_0000 + b * 0x100 + c;
    var s0, s1, s2, s3 := a / 4, a % 4 * 16 + b / 16, b % 16 * 4 + c / 64, c % 64;
    assert n == s0 * 0x4_0000 + s1 * 0x1000 + s2 * 0x40 + s3;
    Quotient(n, 0x4_0000, s0, s1 * 0x1000 + s2 * 0x40 + s3);
    Quotient(n, 0x1000, s0 * 64 + s1, s2 * 0x40 + s3);
    Quotient(n, 0x40, (s0 * 64 + s1) * 64 + s2, s3);
    Quotient(s0 * 64 + s1, 64, s0, s1);
    Quotient((s0 * 64 + s1) * 64 + s2, 64, s0 * 64 + s1, s2);
  }

  lemma SextetsAre(chunk: seq<Byte>)
    requires 1 <= |chunk| <= 3
    ensures var a, b, c := At(chunk, 0), At(chunk, 1), At(chunk, 2);
            Sextets(chunk) == [a / 4, a % 4 * 16 + b / 16, b % 16 * 4 + c / 64, c % 64][..|chunk| + 1]
  {
    hide At;
    SextetValues(At(chunk, 0), At(chunk, 1), At(chunk, 2));
  }

  lemma TripleIs(group: seq<Sextet>, a: Byte, b: Byte, c: Byte)
    requires 2 <= |group| <= 4
    requires group == [a / 4, a % 4 * 16 + b / 16, b % 16 * 4 + c / 64, c % 64][..|group|]
    requires |group| < 4 ==> c == 0
    requires |group| < 3 ==> b == 0
    ensures Triple(group) == [a, b, c][..|group| - 1]
  {
    var n: nat := a * 0x1_0000 + b * 0x100 + c;
    assert group[0] * 0x4_0000 + group[1] * 0x1000 + SymbolAt(group, 2) * 0x40 + SymbolAt(group, 3) == n;
    BytesOfNumber(a, b, c);
  }

  lemma BytesOfNumber(a: Byte, b: Byte, c: Byte)
    ensures var n: nat := a * 0x1_0000 + b * 0x100 + c;
            n / 0x1_0000 % 256 == a && n / 0x100 % 256 == b && n % 256 == c
  {
    var n: nat := a * 0x1_0000 + b * 0x100 + c;
    Quotient(n, 0x1_0000, a, b * 0x100 + c);
    Quotient(n, 0x100, a * 256 + b, c);
    Quotient(a * 256 + b, 256, a, b);
  }

  lemma {:induction false} PackedSextets(input: seq<Byte>)
    ensures Packed(AllSextets(input)) == Ok(input)
  {
    hide Sextets, Triple;
    if |input| > 0 {
      var chunk := if |input| <= 3 then input else input[..3];
      TripleOfSextets(chunk);
      if |input| > 3 {
        PackedSextets(input[3..]);
        var syms := AllSextets(input);
        assert syms[..4] == Sextets(chunk) && syms[4..] == AllSextets(input[3..]);
        PackedStep(syms, Sextets(chunk));
        assert chunk + input[3..] == input;
      }
    }
  }

  /** Decoding the encoding of any byte string gives it back. */
  lemma RoundTrip(input: seq<Byte>)
    ensures Decoded(Encoded(input)) == Ok(input)
  {
    hide Encoded, Symbols, Packed;
    SymbolsOfEncoded(input);
    PackedSextets(input);
  }

  // -------------------------------------------------------------------------
  // What decoding ignores
  // -------------------------------------------------------------------------

  /** The characters that are neither padding nor whitespace. */
  function Kept(text: seq<Byte>): seq<Byte> {
    if text == [] then [] else (if Skipped(text[0]) then [] else [text[0]]) + Kept(text[1..])
  }

  lemma KeptStep(text: seq<Byte>)
    requires text != []
    ensures Skipped(text[0]) ==> Kept(text) == Kept(text[1..])
    ensures !Skipped(text[0]) ==> Kept(text) == [text[0]] + Kept(text[1..])
  {
    hide Skipped;
  }

  lemma SymbolsCons(c: Byte, text: seq<Byte>)
    ensures !Skipped(c) ==>
              Symbols([c] + text) == if Value(c).Err? then Err(Value(c).error)
                                     else Before([Value(c).value], Symbols(text))
  {
    hide Skipped, Value;
    assert ([c] + text)[1..] == text;
  }

  lemma LettersCons(v: Sextet, vs: seq<Sextet>)
    ensures Letters([v] + vs) == [Letter(v)] + Letters(vs)
  {
    hide Letter;
  }

  lemma {:induction false} KeptSymbols(text: seq<Byte>)
    ensures Symbols(Kept(text)) == Symbols(text)
    ensures Symbols(text).Ok? ==> Kept(text) == Letters(Symbols(text).value)
  {
    hide Value, Skipped, Letter, Kept, Letters;
    if text == [] {
      KeptNothing();
    } else {
      KeptSymbols(text[1..]);
      KeptStep(text);
      SymbolsCons(text[0], Kept(text[1..]));
      if !Skipped(text[0]) && Value(text[0]).Ok? {
        ValueLetter(text[0]);
        if Symbols(text[1..]).Ok? {
          LettersCons(Value(text[0]).value, Symbols(text[1..]).value);
        }
      }
    }
  }

  lemma KeptNothing()
    ensures Kept([]) == [] && Letters([]) == []
  {
  }

  /** Padding removed and whitespace inserted anywhere make no difference. */
  lemma RoundTripTolerant(text: seq<Byte>, input: seq<Byte>)
    requires Kept(text) == Kept(Encoded(input))
    ensures Decoded(text) == Ok(input)
  {
    hide Encoded, Symbols, Packed, Kept;
    KeptSymbols(text);
    KeptSymbols(Encoded(input));
    RoundTrip(input);
  }

  lemma {:induction false} KeptConcat(a: seq<Byte>, b: seq<Byte>)
    ensures Kept(a + b) == Kept(a) + Kept(b)
  {
    if a == [] {
      assert a + b == b;
    } else {
      assert (a + b)[1..] == a[1..] + b;
      KeptConcat(a[1..], b);
    }
  }

  lemma {:induction false} KeptOfSkipped(gap: seq<Byte>)
    requires forall i :: 0 <= i < |gap| ==> Skipped(gap[i])
    ensures Kept(gap) == []
  {
    if gap != [] {
      KeptOfSkipped(gap[1..]);
    }
  }

  /** Padding or whitespace inserted at any place leaves the decoding, or the error, as it was. */
  lemma InsertionsAreIgnored(a: seq<Byte>, gap: seq<Byte>, b: seq<Byte>)
    requires forall i :: 0 <= i < |gap| ==> Skipped(gap[i])
    ensures Decoded(a + gap + b) == Decoded(a + b)
  {
    hide Symbols, Packed, Kept, Skipped;
    KeptOfSkipped(gap);
    KeptConcat(a + gap, b);
    KeptConcat(a, gap);
    KeptConcat(a, b);
    assert Kept(a) + [] == Kept(a);
    KeptSymbols(a + gap + b);
    KeptSymbols(a + b);
  }

  // -------------------------------------------------------------------------
  // When decoding fails
  // -------------------------------------------------------------------------

  predicate Foreign(c: Byte) { !Skipped(c) && Value(c).Err? }

  lemma {:induction false} SymbolsFail(text: seq<Byte>)
    ensures Symbols(text).Err? <==> exists i :: 0 <= i < |text| && Foreign(text[i])
    ensures Symbols(text).Err? ==>
              exists i :: 0 <= i < |text| && Foreign(text[i]) && Symbols(text).error == InvalidByte(text[i])
                          && forall j :: 0 <= j < i ==> !Foreign(text[j])
  {
    if text != [] {
      SymbolsFail(text[1..]);
      if Foreign(text[0]) {
        assert Symbols(text) == Err(InvalidByte(text[0]));
      } else {
        assert Symbols(text).Err? <==> Symbols(text[1..]).Err?;
        if Symbols(text).Err? {
          var i :| 0 <= i < |text[1..]| && Foreign(text[1..][i])
                   && Symbols(text[1..]).error == InvalidByte(text[1..][i])
                   && forall j :: 0 <= j < i ==> !Foreign(text[1..][j]);
          assert Foreign(text[i + 1]) && Symbols(text).error == InvalidByte(text[i + 1]);
          forall j | 0 <= j < i + 1
            ensures !Foreign(text[j])
          {
            if j > 0 {
              assert text[j] == text[1..][j - 1];
            }
          }
        } else {
          forall j | 0 <= j < |text|
            ensures !Foreign(text[j])
          {
            if j > 0 {
              assert text[j] == text[1..][j - 1];
            }
          }
        }
      }
    }
  }

  lemma {:induction false} PackedFails(syms: seq<Sextet>)
    ensures Packed(syms) == Err(InvalidLength) <==> |syms| % 4 == 1
    ensures Packed(syms).Err? ==> Packed(syms) == Err(InvalidLength)
    ensures Packed(syms).Ok? ==> |Packed(syms).value| == |syms| * 3 / 4
  {
    hide Triple;
    if |syms| > 4 {
      PackedFails(syms[4..]);
      TripleSize(syms[..4]);
    } else if 2 <= |syms| {
      TripleSize(syms);
    }
  }

  lemma TripleSize(group: seq<Sextet>)
    requires 2 <= |group| <= 4
    ensures |Triple(group)| == |group| - 1
  {
  }

  /** Decoding fails exactly on a byte outside the alphabet, the padding and the
      whitespace (the first one is reported), or on a lone symbol at the end. */
  lemma DecodingFailsIff(text: seq<Byte>)
    ensures Decoded(text).Err? <==> (exists i :: 0 <= i < |text| && Foreign(text[i])) || |Kept(text)| % 4 == 1
    ensures Decoded(text) == Err(InvalidLength) <==>
              (forall i :: 0 <= i < |text| ==> !Foreign(text[i])) && |Kept(text)| % 4 == 1
    ensures Decoded(text).Ok? ==> |Decoded(text).value| == |Kept(text)| * 3 / 4
  {
    hide Symbols, Packed, Foreign, Kept, Letter;
    SymbolsFail(text);
    KeptSymbols(text);
    if Symbols(text).Ok? {
      PackedFails(Symbols(text).value);
    }
  }

  // -------------------------------------------------------------------------
  // What the symbols mean
  // -------------------------------------------------------------------------

  /** The lowest `w` bits, the highest first. */
  function Bits(v: nat, w: nat): seq<bool> {
    if w == 0 then [] else Bits(v / 2, w - 1) + [v % 2 == 1]
  }

  function BitsOf(vs: seq<nat>, w: nat): seq<bool> {
    if vs == [] then [] else Bits(vs[0], w) + BitsOf(vs[1..], w)
  }

  function Zeros(n: nat): seq<bool> { seq(n, _ => false) }

  lemma {:induction false} BitsJoin(hi: nat, lo: nat, a: nat, b: nat)
    requires lo < Pow2(b)
    ensures Bits(hi * Pow2(b) + lo, a + b) == Bits(hi, a) + Bits(lo, b)
  {
    if b > 0 {
      var h := hi * Pow2(b - 1);
      assert hi * Pow2(b) == 2 * h;
      assert (2 * h + lo) / 2 == h + lo / 2 && (2 * h + lo) % 2 == lo % 2;
      BitsJoin(hi, lo / 2, a, b - 1);
    }
  }

  lemma {:induction false} BitsOfConcat(a: seq<nat>, b: seq<nat>, w: nat)
    ensures BitsOf(a + b, w) == BitsOf(a, w) + BitsOf(b, w)
  {
    if a == [] {
      assert a + b == b;
    } else {
      assert (a + b)[1..] == a[1..] + b;
      BitsOfConcat(a[1..], b, w);
    }
  }

  /** A number in base 2^w, the highest digit first. */
  function Number(vs: seq<nat>, w: nat): nat {
    if vs == [] then 0 else Number(vs[..|vs| - 1], w) * Pow2(w) + vs[|vs| - 1]
  }

  lemma {:induction false} NumberBits(vs: seq<nat>, w: nat)
    requires forall i :: 0 <= i < |vs| ==> vs[i] < Pow2(w)
    ensures Bits(Number(vs, w), |vs| * w) == BitsOf(vs, w)
  {
    hide Pow2;
    if vs != [] {
      var most, last := vs[..|vs| - 1], vs[|vs| - 1];
      NumberBits(most, w);
      BitsJoin(Number(most, w), last, |most| * w, w);
      OneMore(|most|, w);
      assert vs == most + [last];
      BitsOfConcat(most, [last], w);
      BitsOfOne(last, w);
    } else {
      OneMore(0, w);
    }
  }

  lemma BitsOfOne(v: nat, w: nat)
    ensures BitsOf([v], w) == Bits(v, w)
  {
  }

  /** Bits left over in the last symbol. */
  function Slack(n: nat): nat { if n % 3 == 0 then 0 else 6 - 2 * (n % 3) }

  lemma Powers()
    ensures Pow2(0) == 1 && Pow2(2) == 4 && Pow2(4) == 16 && Pow2(6) == 64 && Pow2(8) == 256
  {
    assert Pow2(2) == 2 * Pow2(1) && Pow2(4) == 2 * Pow2(3) && Pow2(6) == 2 * Pow2(5) && Pow2(8) == 2 * Pow2(7);
  }

  lemma {:induction false} ZeroBits(w: nat)
    ensures Bits(0, w) == Zeros(w)
  {
    if w > 0 {
      ZeroBits(w - 1);
    }
  }

  /** As numbers, the sextets of a chunk are the chunk with its slack. */
  lemma ChunkNumber(chunk: seq<Byte>)
    requires 1 <= |chunk| <= 3
    ensures |Sextets(chunk)| == |chunk| + 1
    ensures Number(Sextets(chunk), 6) == Number(chunk, 8) * Pow2(Slack(|chunk|))
  {
    hide Pow2, Number;
    Powers();
    var a, b, c := At(chunk, 0), At(chunk, 1), At(chunk, 2);
    SextetsAre(chunk);
    var g := Sextets(chunk);
    if |chunk| == 1 {
      NumberTwo(g, 6);
      NumberOne(chunk, 8);
    } else if |chunk| == 2 {
      NumberThree(g, 6);
      NumberTwo(chunk, 8);
    } else {
      NumberFour(g, 6);
      NumberThree(chunk, 8);
    }
  }

  lemma NumberOne(vs: seq<nat>, w: nat)
    requires |vs| == 1
    ensures Number(vs, w) == vs[0]
  {
    assert Number([], w) == 0 && vs[..0] == [];
  }

  lemma NumberTwo(vs: seq<nat>, w: nat)
    requires |vs| == 2
    ensures Number(vs, w) == vs[0] * Pow2(w) + vs[1]
  {
    hide Pow2;
    NumberOne(vs[..1], w);
  }

  lemma NumberThree(vs: seq<nat>, w: nat)
    requires |vs| == 3
    ensures Number(vs, w) == (vs[0] * Pow2(w) + vs[1]) * Pow2(w) + vs[2]
  {
    hide Pow2;
    NumberTwo(vs[..2], w);
  }

  lemma NumberFour(vs: seq<nat>, w: nat)
    requires |vs| == 4
    ensures Number(vs, w) == ((vs[0] * Pow2(w) + vs[1]) * Pow2(w) + vs[2]) * Pow2(w) + vs[3]
  {
    hide Pow2;
    NumberThree(vs[..3], w);
  }

  lemma BitsShifted(v: nat, a: nat, k: nat)
    ensures Bits(v * Pow2(k), a + k) == Bits(v, a) + Zeros(k)
  {
    hide Pow2, Bits;
    PowPositive(k);
    BitsJoin(v, 0, a, k);
    ZeroBits(k);
  }

  lemma ChunkSize(n: nat)
    requires 1 <= n <= 3
    ensures (n + 1) * 6 == n * 8 + Slack(n)
  {
  }

  lemma ChunkBits(chunk: seq<Byte>)
    requires 1 <= |chunk| <= 3
    ensures BitsOf(Sextets(chunk), 6) == BitsOf(chunk, 8) + Zeros(Slack(|chunk|))
  {
    hide Pow2, Number, Sextets, BitsOf, Bits, Slack;
    Powers();
    ChunkNumber(chunk);
    NumberBits(Sextets(chunk), 6);
    NumberBits(chunk, 8);
    BitsShifted(Number(chunk, 8), |chunk| * 8, Slack(|chunk|));
    ChunkSize(|chunk|);
  }

  lemma {:induction false} PowPositive(n: nat)
    ensures 0 < Pow2(n)
  {
    if n > 0 {
      PowPositive(n - 1);
    }
  }

  /** The symbols of an encoding are the bits of the input, in order, then zeros to
      fill the last symbol. */
  lemma {:induction false} EncodingKeepsBits(input: seq<Byte>)
    ensures BitsOf(AllSextets(input), 6) == BitsOf(input, 8) + Zeros(Slack(|input|))
  {
    hide Sextets, Bits;
    if 1 <= |input| <= 3 {
      ChunkBits(input);
    } else if |input| > 3 {
      var chunk, rest := input[..3], input[3..];
      ChunkBits(chunk);
      EncodingKeepsBits(rest);
      BitsOfConcat(Sextets(chunk), AllSextets(rest), 6);
      BitsOfConcat(chunk, rest, 8);
      assert input == chunk + rest && BitsOf(chunk, 8) + Zeros(0) == BitsOf(chunk, 8);
    }
  }

  function Pads(n: nat): seq<Byte> { seq((3 - n % 3) % 3, _ => PAD) }

  lemma LettersConcat(a: seq<Sextet>, b: seq<Sextet>)
    ensures Letters(a + b) == Letters(a) + Letters(b)
  {
    hide Letter;
  }

  lemma QuadShape(chunk: seq<Byte>)
    requires 1 <= |chunk| <= 3
    ensures Quad(chunk) == Letters(Sextets(chunk)) + Pads(|chunk|) && |Sextets(chunk)| == |chunk| + 1
    ensures |chunk| == 3 ==> Pads(|chunk|) == []
  {
    hide Letter, Sextets;
    SextetsAre(chunk);
  }

  /** The text of an encoding: one letter per symbol, padded to a multiple of four. */
  lemma {:induction false} EncodedShape(input: seq<Byte>)
    ensures Encoded(input) == Letters(AllSextets(input)) + Pads(|input|)
  {
    hide Sextets, Letters, Quad, Pads;
    if |input| == 0 {
      NoPads();
    } else if |input| <= 3 {
      QuadShape(input);
    } else {
      QuadShape(input[..3]);
      EncodedShape(input[3..]);
      LettersConcat(Sextets(input[..3]), AllSextets(input[3..]));
      SamePads(|input|);
      var first, rest := Letters(Sextets(input[..3])), Letters(AllSextets(input[3..]));
      assert first + [] == first && first + (rest + Pads(|input|)) == (first + rest) + Pads(|input|);
    }
  }

  lemma NoPads()
    ensures Pads(0) == [] && Letters([]) == []
  {
  }

  lemma SamePads(n: nat)
    requires 3 <= n
    ensures Pads(n) == Pads(n - 3)
  {
  }

  lemma {:induction false} EncodedSize(input: seq<Byte>)
    ensures |AllSextets(input)| == (8 * |input| + 5) / 6 && |Encoded(input)| == (|input| + 2) / 3 * 4
  {
    hide Sextets, Letters, Quad;
    if |input| > 0 {
      var chunk := if |input| <= 3 then input else input[..3];
      QuadShape(chunk);
      QuadSize(chunk);
      if |input| > 3 {
        EncodedSize(input[3..]);
      }
    }
  }

  lemma QuadSize(chunk: seq<Byte>)
    requires 1 <= |chunk| <= 3
    ensures |Quad(chunk)| == 4
  {
    hide Letter, Sextets;
    SextetsAre(chunk);
  }

  // -------------------------------------------------------------------------
  // Which texts are encodings
  // -------------------------------------------------------------------------

  /** The last symbol has no stray bits below its bytes. */
  predicate Canonical(syms: seq<Sextet>) {
    && (|syms| % 4 == 2 ==> syms[|syms| - 1] % 16 == 0)
    && (|syms| % 4 == 3 ==> syms[|syms| - 1] % 4 == 0)
  }

  lemma GroupBytes(group: seq<Sextet>)
    requires 2 <= |group| <= 4
    ensures |Triple(group)| == |group| - 1
    ensures Sextets(Triple(group)) == group <==> Canonical(group)
  {
    hide Sextets, Triple;
    var s0: nat, s1: nat, s2: nat, s3: nat := group[0], group[1], SymbolAt(group, 2), SymbolAt(group, 3);
    var a: nat, b: nat, c: nat := s0 * 4 + s1 / 16, s1 % 16 * 16 + s2 / 4, s2 % 4 * 64 + s3;
    TripleBytes(group, s0, s1, s2, s3);
    var bytes := Triple(group);
    SextetsAre(bytes);
    assert At(bytes, 0) == a;
    SextetsBack(s0, s1, s2, s3);
  }

  lemma SextetsBack(s0: nat, s1: nat, s2: nat, s3: nat)
    requires s0 < 64 && s1 < 64 && s2 < 64 && s3 < 64
    ensures var a, b, c := s0 * 4 + s1 / 16, s1 % 16 * 16 + s2 / 4, s2 % 4 * 64 + s3;
            && a / 4 == s0 && a % 4 * 16 + b / 16 == s1 && b % 16 * 4 + c / 64 == s2 && c % 64 == s3
            && a % 4 * 16 == s1 / 16 * 16 && b % 16 * 4 == s2 / 4 * 4
  {
  }

  lemma TripleBytes(group: seq<Sextet>, s0: nat, s1: nat, s2: nat, s3: nat)
    requires 2 <= |group| <= 4
    requires s0 == group[0] && s1 == group[1] && s2 == SymbolAt(group, 2) && s3 == SymbolAt(group, 3)
    ensures Triple(group) == [s0 * 4 + s1 / 16, s1 % 16 * 16 + s2 / 4, s2 % 4 * 64 + s3][..|group| - 1]
  {
    hide SymbolAt;
    var a: nat, b: nat, c: nat := s0 * 4 + s1 / 16, s1 % 16 * 16 + s2 / 4, s2 % 4 * 64 + s3;
    assert s0 * 0x4_0000 + s1 * 0x1000 + s2 * 0x40 + s3 == a * 0x1_0000 + b * 0x100 + c;
    BytesOfNumber(a, b, c);
  }

  lemma {:induction false} PackedAgain(syms: seq<Sextet>)
    requires Packed(syms).Ok?
    ensures AllSextets(Packed(syms).value) == syms <==> Canonical(syms)
  {
    hide Sextets, Triple;
    if |syms| > 4 {
      var rest := Packed(syms[4..]).value;
      GroupBytes(syms[..4]);
      PackedAgain(syms[4..]);
      PackedFails(syms[4..]);
      var bytes := Triple(syms[..4]) + rest;
      assert bytes[..3] == Triple(syms[..4]) && bytes[3..] == rest && |rest| > 0;
      if |bytes| > 3 {
        assert AllSextets(bytes) == syms[..4] + AllSextets(rest);
        assert syms == syms[..4] + syms[4..];
        assert AllSextets(bytes)[4..] == AllSextets(rest);
      }
    } else if |syms| > 0 {
      GroupBytes(syms);
    }
  }

  /** Decoding forgives: a text decodes to bytes whose encoding spells the same symbols
      exactly when its last symbol has no stray bits. */
  lemma CanonicalIff(text: seq<Byte>)
    requires Decoded(text).Ok?
    ensures Kept(Encoded(Decoded(text).value)) == Kept(text) <==> Canonical(Symbols(text).value)
  {
    hide Symbols, Packed, Canonical, Kept, Encoded, Letter;
    var input := Decoded(text).value;
    KeptSymbols(text);
    KeptSymbols(Encoded(input));
    SymbolsOfEncoded(input);
    PackedAgain(Symbols(text).value);
    SymbolsOfLetters(Symbols(text).value);
    SymbolsOfLetters(AllSextets(input));
  }
}
