/**
 * The Argon2id hash string: printing it and parsing it back, through decimal numbers, `$` and `,`
 * fields, and base64 without padding (sections 3.2 and 4 of RFC 4648).
 */
module HashString {
  import opened Wrappers

  type uint8 = x: int | 0 <= x < 0x100
  type uint32 = x: int | 0 <= x < 0x1_0000_0000

  const MAX_MEMORY := 128 * 1024
  const MAX_TIME := 6
  const MAX_THREADS := 8
  const VERSION: nat := 19  // argon2.Version, the only version accepted

  datatype Params = Params(memory: uint32, time: uint32, threads: uint8, keyLen: uint32)

  // ------------------------------------------------------------------ decimal

  function Digit(n: nat): char
    requires n < 10
  {
    '0' + n as char
  }

  function Itoa(n: nat): string {
    if n < 10 then [Digit(n)] else Itoa(n / 10) + [Digit(n % 10)]
  }

  predicate AllDigits(s: string) { forall i :: 0 <= i < |s| ==> '0' <= s[i] <= '9' }

  function DecimalValue(s: string): nat
    requires AllDigits(s)
  {
    if s == "" then 0
    else DecimalValue(s[..|s| - 1]) * 10 + (s[|s| - 1] as int - '0' as int)
  }

  /** `strconv.ParseUint(s, 10, 32)`: digits only, and no larger than 32 bits. */
  function ParseUint32(s: string): Option<uint32> {
    if s == "" || !AllDigits(s) then None
    else if DecimalValue(s) < 0x1_0000_0000 then Some(DecimalValue(s)) else None
  }

  lemma {:induction false} DecimalRoundTrip(n: nat)
    ensures Itoa(n) != "" && AllDigits(Itoa(n)) && DecimalValue(Itoa(n)) == n
  {
    if n >= 10 {
      DecimalRoundTrip(n / 10);
      var s := Itoa(n);
      assert s[..|s| - 1] == Itoa(n / 10) && s[|s| - 1] == Digit(n % 10);
      assert n == n / 10 * 10 + n % 10;
    }
  }

  // ------------------------------------------------------------------- fields

  /** `strings.Split` with a separator of one character. */
  function Split(s: string, separator: char): (r: seq<string>)
    ensures |r| >= 1
  {
    if s == "" then [""]
    else
      var rest := Split(s[1..], separator);
      if s[0] == separator then [""] + rest else [[s[0]] + rest[0]] + rest[1..]
  }

  lemma {:induction false} SplitField(field: string, rest: string, separator: char)
    requires separator !in field
    ensures Split(field + [separator] + rest, separator) == [field] + Split(rest, separator)
  {
    var s := field + [separator] + rest;
    if field == "" {
      assert s[1..] == rest;
    } else {
      assert s[0] == field[0] && s[1..] == field[1..] + [separator] + rest;
      SplitField(field[1..], rest, separator);
      assert [field[0]] + field[1..] == field;
    }
  }

  lemma {:induction false} SplitLast(field: string, separator: char)
    requires separator !in field
    ensures Split(field, separator) == [field]
  {
    if field != "" {
      SplitLast(field[1..], separator);
      assert [field[0]] + field[1..] == field;
    }
  }

  function Join(fields: seq<string>, separator: char): string
    requires fields != []
  {
    if |fields| == 1 then fields[0] else fields[0] + [separator] + Join(fields[1..], separator)
  }

  /** Splitting undoes joining when no field holds the separator. */
  lemma {:induction false} SplitJoin(fields: seq<string>, separator: char)
    requires fields != [] && forall i :: 0 <= i < |fields| ==> separator !in fields[i]
    ensures Split(Join(fields, separator), separator) == fields
  {
    if |fields| == 1 {
      SplitLast(fields[0], separator);
    } else {
      SplitJoin(fields[1..], separator);
      SplitField(fields[0], Join(fields[1..], separator), separator);
    }
  }

  /** Joining undoes splitting, for every string, and no field holds the separator. */
  lemma {:induction false} JoinSplit(s: string, separator: char)
    ensures Join(Split(s, separator), separator) == s
    ensures forall i :: 0 <= i < |Split(s, separator)| ==> separator !in Split(s, separator)[i]
  {
    if s != "" {
      var rest := Split(s[1..], separator);
      JoinSplit(s[1..], separator);
      assert [s[0]] + s[1..] == s;
      if s[0] == separator {
        assert ([""] + rest)[1..] == rest;
      } else if |rest| > 1 {
        assert ([[s[0]] + rest[0]] + rest[1..])[1..] == rest[1..];
      }
    }
  }

  predicate HasPrefix(s: string, prefix: string) { |prefix| <= |s| && s[..|prefix|] == prefix }

  // ------------------------------------------------------------------- base64

  type sextet = x: int | 0 <= x < 64

  /** The alphabet of section 4 of RFC 4648. */
  function Letter(n: sextet): char {
    if n < 26 then 'A' + n as char
    else if n < 52 then 'a' + (n - 26) as char
    else if n < 62 then '0' + (n - 52) as char
    else if n == 62 then '+' else '/'
  }

  function LetterValue(c: char): Option<sextet> {
    if 'A' <= c <= 'Z' then Some((c - 'A') as int)
    else if 'a' <= c <= 'z' then Some((c - 'a') as int + 26)
    else if '0' <= c <= '9' then Some((c - '0') as int + 52)
    else if c == '+' then Some(62)
    else if c == '/' then Some(63)
    else None
  }

  /** Groups of three bytes become groups of four sextets; a short last group is not padded. */
  function Sextets(bs: seq<byte>): seq<sextet> {
    if bs == [] then []
    else if |bs| == 1 then [High(bs[0]), SecondLast(bs[0])]
    else if |bs| == 2 then [High(bs[0]), Second(bs[0], bs[1]), ThirdLast(bs[1])]
    else [High(bs[0]), Second(bs[0], bs[1]), Third(bs[1], bs[2]), Low(bs[2])] + Sextets(bs[3..])
  }

  function High(a: byte): sextet { a / 4 }
  function Second(a: byte, b: byte): sextet { a % 4 * 16 + b / 16 }
  function Third(b: byte, c: byte): sextet { b % 16 * 4 + c / 64 }
  function Low(c: byte): sextet { c % 64 }
  function SecondLast(a: byte): sextet { a % 4 * 16 }
  function ThirdLast(b: byte): sextet { b % 16 * 4 }

  /** A last group of one sextet is an error; unused low bits of a last group are ignored. */
  function Bytes(xs: seq<sextet>): Option<seq<byte>> {
    if xs == [] then Some([])
    else if |xs| == 1 then None
    else if |xs| == 2 then Some([FirstByte(xs[0], xs[1])])
    else if |xs| == 3 then Some([FirstByte(xs[0], xs[1]), SecondByte(xs[1], xs[2])])
    else
      match Bytes(xs[4..])
      case None => None
      case Some(rest) =>
        Some([FirstByte(xs[0], xs[1]), SecondByte(xs[1], xs[2]), ThirdByte(xs[2], xs[3])] + rest)
  }

  function FirstByte(a: sextet, b: sextet): byte { a as int * 4 + b as int / 16 }
  function SecondByte(a: sextet, b: sextet): byte { a as int % 16 * 16 + b as int / 4 }
  function ThirdByte(a: sextet, b: sextet): byte { a as int % 4 * 64 + b as int }

  function Letters(xs: seq<sextet>): string {
    if xs == [] then "" else [Letter(xs[0])] + Letters(xs[1..])
  }

  /** Line breaks are skipped wherever they stand. */
  function LetterValues(s: string): Option<seq<sextet>> {
    if s == "" then Some([])
    else if s[0] == '\r' || s[0] == '\n' then LetterValues(s[1..])
    else
      match (LetterValue(s[0]), LetterValues(s[1..]))
      case (Some(x), Some(rest)) => Some([x] + rest)
      case _ => None
  }

  function Base64Encode(bs: seq<byte>): string { Letters(Sextets(bs)) }

  function Base64Decode(s: string): Option<seq<byte>> {
    match LetterValues(s)
    case None => None
    case Some(xs) => Bytes(xs)
  }

  lemma {:induction false} BytesOfSextets(bs: seq<byte>)
    ensures Bytes(Sextets(bs)) == Some(bs)
  {
    if |bs| >= 3 {
      BytesOfSextets(bs[3..]);
      WholeGroup(bs[0], bs[1], bs[2], Sextets(bs[3..]));
      assert bs == [bs[0], bs[1], bs[2]] + bs[3..];
    } else {
      LastGroup(bs);
    }
  }

  lemma {:induction false} LastGroup(bs: seq<byte>)
    requires |bs| < 3
    ensures Bytes(Sextets(bs)) == Some(bs)
  {
    if |bs| == 2 {
      assert bs == [bs[0], bs[1]];
      TwoBytes(bs[0], bs[1]);
    } else if |bs| == 1 {
      assert bs == [bs[0]];
      OneByte(bs[0]);
    } else {
      assert bs == [];
    }
  }

  lemma {:induction false} OneByte(a: byte)
    ensures Bytes(Sextets([a])) == Some([a])
  {
    LastSextets(a, a);
    var xs := [High(a), SecondLast(a)];
    assert Sextets([a]) == xs && Bytes(xs) == Some([FirstByte(xs[0], xs[1])]);
  }

  lemma {:induction false} TwoBytes(a: byte, b: byte)
    ensures Bytes(Sextets([a, b])) == Some([a, b])
  {
    GroupOfThree(a, b, b);
    LastSextets(a, b);
    var xs := [High(a), Second(a, b), ThirdLast(b)];
    assert Sextets([a, b]) == xs && Bytes(xs) == Some([FirstByte(xs[0], xs[1]), SecondByte(xs[1], xs[2])]);
  }

  lemma {:induction false} WholeGroup(a: byte, b: byte, c: byte, rest: seq<sextet>)
    ensures Bytes([High(a), Second(a, b), Third(b, c), Low(c)] + rest)
         == match Bytes(rest) case None => None case Some(bs) => Some([a, b, c] + bs)
  {
    GroupOfThree(a, b, c);
    BytesStep(High(a), Second(a, b), Third(b, c), Low(c), rest);
  }

  lemma {:induction false} BytesStep(x: sextet, y: sextet, z: sextet, u: sextet, rest: seq<sextet>)
    ensures Bytes([x, y, z, u] + rest)
         == match Bytes(rest) case None => None
            case Some(bs) => Some([FirstByte(x, y), SecondByte(y, z), ThirdByte(z, u)] + bs)
  {
    assert ([x, y, z, u] + rest)[4..] == rest;
  }

  lemma LastSextets(a: byte, b: byte)
    ensures FirstByte(High(a), SecondLast(a)) == a && SecondByte(Second(a, b), ThirdLast(b)) == b
  {
    var x, y := a % 4, b % 16;
    assert x * 16 / 16 == x && y * 4 / 4 == y;
    assert (x * 16 + b / 16) % 16 == b / 16;
  }

  lemma GroupOfThree(a: byte, b: byte, c: byte)
    ensures FirstByte(High(a), Second(a, b)) == a
    ensures SecondByte(Second(a, b), Third(b, c)) == b
    ensures ThirdByte(Third(b, c), Low(c)) == c
  {
    var x, y := a % 4, b % 16;
    assert (x * 16 + b / 16) / 16 == x && (x * 16 + b / 16) % 16 == b / 16;
    assert (y * 4 + c / 64) / 4 == y && (y * 4 + c / 64) % 4 == c / 64;
  }

  const UPPER := "ABCDEFGHIJKLMNOPQRSTUVWXYZ"
  const LOWER := "abcdefghijklmnopqrstuvwxyz"
  const DIGITS := "0123456789"

  lemma {:induction false} UpperAt(n: nat)
    requires n < 26
    ensures UPPER[n] == 'A' + n as char
  {
    assert n == 0 || n == 1 || n == 2 || n == 3 || n == 4 || n == 5 || n == 6 || n == 7 || n == 8 || n == 9 || n == 10
           || n == 11 || n == 12 || n == 13 || n == 14 || n == 15 || n == 16 || n == 17 || n == 18 || n == 19 || n == 20
           || n == 21 || n == 22 || n == 23 || n == 24 || n == 25;
  }

  lemma {:induction false} LowerAt(n: nat)
    requires n < 26
    ensures LOWER[n] == 'a' + n as char
  {
    assert n == 0 || n == 1 || n == 2 || n == 3 || n == 4 || n == 5 || n == 6 || n == 7 || n == 8 || n == 9 || n == 10
           || n == 11 || n == 12 || n == 13 || n == 14 || n == 15 || n == 16 || n == 17 || n == 18 || n == 19 || n == 20
           || n == 21 || n == 22 || n == 23 || n == 24 || n == 25;
  }

  lemma {:induction false} DigitAt(n: nat)
    requires n < 10
    ensures DIGITS[n] == '0' + n as char
  {
    assert n == 0 || n == 1 || n == 2 || n == 3 || n == 4 || n == 5 || n == 6 || n == 7 || n == 8 || n == 9;
  }

  lemma {:induction false} AlphabetAt(n: sextet)
    ensures Letter(n) == (UPPER + LOWER + DIGITS + "+/")[n]
  {
    var letters := UPPER + LOWER;
    if n < 26 {
      UpperAt(n);
      assert letters[n] == UPPER[n];
    } else if n < 52 {
      LowerAt(n - 26);
      assert letters[n] == LOWER[n - 26];
    } else if n < 62 {
      DigitAt(n - 52);
      assert (letters + DIGITS)[n] == DIGITS[n - 52];
    }
  }

  /** The letter of a sextet, and of no other. */
  lemma {:induction false} AlphabetMeaning(c: char, n: sextet)
    ensures LetterValue(c) == Some(n) <==> c == (UPPER + LOWER + DIGITS + "+/")[n]
    ensures Letter(n) == (UPPER + LOWER + DIGITS + "+/")[n]
  {
    AlphabetAt(n);
    ValueOfLetter(c, n);
  }

  lemma {:induction false} ValueOfLetter(c: char, n: sextet)
    ensures LetterValue(c) == Some(n) <==> c == Letter(n)
  {
  }

  /** A whole group keeps its 24 bits, first byte and first letter foremost. */
  lemma GroupValue(a: byte, b: byte, c: byte)
    ensures ((High(a) * 64 + Second(a, b)) * 64 + Third(b, c)) * 64 + Low(c) == (a * 256 + b) * 256 + c
  {
  }

  lemma LetterBack(n: sextet)
    ensures LetterValue(Letter(n)) == Some(n) && Letter(n) !in "\r\n$"
  {
  }

  lemma {:induction false} LettersBack(xs: seq<sextet>)
    ensures LetterValues(Letters(xs)) == Some(xs) && '$' !in Letters(xs)
  {
    if xs != [] {
      LettersBack(xs[1..]);
      LetterBack(xs[0]);
      assert Letters(xs)[1..] == Letters(xs[1..]);
      assert [xs[0]] + xs[1..] == xs;
    }
  }

  predicate IsBreak(c: char) { c == '\r' || c == '\n' }

  /** The characters that count. */
  function LetterCount(s: string): nat {
    if s == "" then 0 else LetterCount(s[1..]) + if IsBreak(s[0]) then 0 else 1
  }

  predicate InAlphabet(c: char) { c in UPPER + LOWER + DIGITS + "+/" }

  lemma {:induction false} AlphabetIff(c: char)
    ensures LetterValue(c).Some? <==> InAlphabet(c)
  {
    var alphabet := UPPER + LOWER + DIGITS + "+/";
    if LetterValue(c).Some? {
      AlphabetMeaning(c, LetterValue(c).value);
      assert alphabet[LetterValue(c).value] in alphabet;
    }
    if InAlphabet(c) {
      var n :| 0 <= n < |alphabet| && alphabet[n] == c;
      AlphabetMeaning(c, n);
    }
  }

  lemma {:induction false} LetterValuesIff(s: string)
    ensures LetterValues(s).Some? <==> forall c :: c in s ==> InAlphabet(c) || IsBreak(c)
    ensures LetterValues(s).Some? ==> |LetterValues(s).value| == LetterCount(s)
  {
    if s != "" {
      LetterValuesIff(s[1..]);
      AlphabetIff(s[0]);
      assert s == [s[0]] + s[1..];
    }
  }

  lemma {:induction false} BytesIff(xs: seq<sextet>)
    ensures Bytes(xs).Some? <==> |xs| % 4 != 1
  {
    if |xs| >= 4 {
      BytesIff(xs[4..]);
      BytesStep(xs[0], xs[1], xs[2], xs[3], xs[4..]);
      assert [xs[0], xs[1], xs[2], xs[3]] + xs[4..] == xs;
    }
  }

  /** Which texts decode: letters of the alphabet and line breaks only, and not a single letter in the last group. */
  lemma {:induction false} Base64DecodesIff(s: string)
    ensures Base64Decode(s).Some? <==> (forall c :: c in s ==> InAlphabet(c) || IsBreak(c)) && LetterCount(s) % 4 != 1
  {
    LetterValuesIff(s);
    if LetterValues(s).Some? {
      BytesIff(LetterValues(s).value);
    }
  }

  /** A line break may stand anywhere. */
  lemma {:induction false} BreaksAreSkipped(a: string, c: char, b: string)
    requires IsBreak(c)
    ensures Base64Decode(a + [c] + b) == Base64Decode(a + b)
  {
    BreakIsSkipped(a, c, b);
  }

  lemma {:induction false} BreakIsSkipped(a: string, c: char, b: string)
    requires IsBreak(c)
    ensures LetterValues(a + [c] + b) == LetterValues(a + b)
  {
    if a == "" {
      assert a + [c] + b == [c] + b && ([c] + b)[1..] == b && a + b == b;
    } else {
      var with, without := a + [c] + b, a + b;
      BreakIsSkipped(a[1..], c, b);
      assert with[0] == a[0] == without[0] && with[1..] == a[1..] + [c] + b && without[1..] == a[1..] + b;
    }
  }

  lemma {:induction false} LeadingBits(x: sextet, y: sextet)
    ensures FirstByte(x, y) == (x * 64 + y) / 16 && SecondByte(x, y) == (x * 64 + y) / 4 % 256
  {
    var high, low := x / 16, x % 16;
    assert x * 64 + y == (high * 256 + low * 16 + y / 4) * 4 + y % 4;
  }

  /** A short last group gives its leading bits; the rest of them is ignored, as section 3.5 of RFC 4648 permits. */
  lemma {:induction false} ShortGroups(x: sextet, y: sextet, z: sextet)
    ensures Bytes([x, y]) == Some([(x * 64 + y) / 16])
    ensures Bytes([x, y, z]) == Some([(x * 64 + y) / 16, (y * 64 + z) / 4 % 256])
  {
    LeadingBits(x, y);
    LeadingBits(y, z);
    var two, three := [x, y], [x, y, z];
    assert Bytes(two) == Some([FirstByte(two[0], two[1])]);
    assert Bytes(three) == Some([FirstByte(three[0], three[1]), SecondByte(three[1], three[2])]);
  }

  lemma Base64RoundTrip(bs: seq<byte>)
    ensures Base64Decode(Base64Encode(bs)) == Some(bs) && '$' !in Base64Encode(bs)
  {
    BytesOfSextets(bs);
    LettersBack(Sextets(bs));
  }

  // ------------------------------------------------------- printing and parsing

  function PrintParams(p: Params): string {
    Join(["m=" + Itoa(p.memory), "t=" + Itoa(p.time), "p=" + Itoa(p.threads)], ',')
  }

  /** The format string of `encodeArgon2id`, which starts with a `$`. */
  function Print(p: Params, salt: seq<byte>, key: seq<byte>): string {
    Join(["", "argon2id", "v=" + Itoa(VERSION), PrintParams(p), Base64Encode(salt), Base64Encode(key)], '$')
  }

  datatype Parsed =
    | Ok(params: Params, salt: seq<byte>, key: seq<byte>)
    | BadFormat
    | BadParameters
    | BadSalt
    | BadHash

  function ParseParameter(value: string, prefix: string, maximum: nat): Option<nat> {
    if !HasPrefix(value, prefix) then None
    else
      match ParseUint32(value[|prefix|..])
      case None => None
      case Some(n) => if n == 0 || n > maximum then None else Some(n)
  }

  /** The key length is filled in later. */
  function ParseParameters(s: string): Option<Params> {
    var values := Split(s, ',');
    if |values| != 3 then None
    else
      match (ParseParameter(values[0], "m=", MAX_MEMORY), ParseParameter(values[1], "t=", MAX_TIME),
             ParseParameter(values[2], "p=", MAX_THREADS))
      case (Some(m), Some(t), Some(p)) => if m < 8 * p then None else Some(Params(m, t, p, 0))
      case _ => None
  }

  function Parse(s: string): Parsed {
    var parts := Split(s, '$');
    if |parts| != 6 || parts[0] != "" || parts[1] != "argon2id" || parts[2] != "v=" + Itoa(VERSION) then BadFormat
    else
      match ParseParameters(parts[3])
      case None => BadParameters
      case Some(p) =>
        match Base64Decode(parts[4])
        case None => BadSalt
        case Some(salt) =>
          if |salt| < 8 || |salt| > 64 then BadSalt
          else
            match Base64Decode(parts[5])
            case None => BadHash
            case Some(key) =>
              if |key| < 16 || |key| > 64 then BadHash else Ok(p.(keyLen := |key|), salt, key)
  }

  // ----------------------------------------------------------------- theorems

  /** Memory of at least eight blocks a lane, as section 3.1 of RFC 9106 asks. */
  predicate CostsAllowed(p: Params) {
    1 <= p.memory <= MAX_MEMORY && 1 <= p.time <= MAX_TIME && 1 <= p.threads <= MAX_THREADS && 8 * p.threads <= p.memory
  }

  /** What parsing a printed hash must answer, told from the values alone. */
  function Expected(p: Params, salt: seq<byte>, key: seq<byte>): Parsed {
    if !CostsAllowed(p) then BadParameters
    else if !(8 <= |salt| <= 64) then BadSalt
    else if !(16 <= |key| <= 64) then BadHash
    else Ok(Params(p.memory, p.time, p.threads, |key|), salt, key)
  }

  lemma ParameterRoundTrip(prefix: string, n: uint32, maximum: nat)
    ensures ParseParameter(prefix + Itoa(n), prefix, maximum) == if 1 <= n <= maximum then Some(n) else None
  {
    DecimalRoundTrip(n);
    var value := prefix + Itoa(n);
    assert value[..|prefix|] == prefix && value[|prefix|..] == Itoa(n);
  }

  lemma DigitsAreNotSeparators(n: nat)
    ensures '$' !in Itoa(n) && ',' !in Itoa(n)
  {
    DecimalRoundTrip(n);
  }

  lemma ParametersRoundTrip(p: Params)
    ensures ParseParameters(PrintParams(p)) == if CostsAllowed(p) then Some(p.(keyLen := 0)) else None
    ensures '$' !in PrintParams(p)
  {
    DigitsAreNotSeparators(p.memory);
    DigitsAreNotSeparators(p.time);
    DigitsAreNotSeparators(p.threads);
    var fields := ["m=" + Itoa(p.memory), "t=" + Itoa(p.time), "p=" + Itoa(p.threads)];
    SplitJoin(fields, ',');
    NotInJoin(fields, ',', '$');
    ParameterRoundTrip("m=", p.memory, MAX_MEMORY);
    ParameterRoundTrip("t=", p.time, MAX_TIME);
    ParameterRoundTrip("p=", p.threads, MAX_THREADS);
  }

  lemma {:induction false} NotInJoin(fields: seq<string>, separator: char, c: char)
    requires fields != [] && c != separator && forall i :: 0 <= i < |fields| ==> c !in fields[i]
    ensures c !in Join(fields, separator)
  {
    if |fields| > 1 {
      NotInJoin(fields[1..], separator, c);
    }
  }

  lemma FieldsOfPrinted(p: Params, salt: seq<byte>, key: seq<byte>)
    ensures Split(Print(p, salt, key), '$')
         == ["", "argon2id", "v=" + Itoa(VERSION), PrintParams(p), Base64Encode(salt), Base64Encode(key)]
  {
    DigitsAreNotSeparators(VERSION);
    ParametersRoundTrip(p);
    Base64RoundTrip(salt);
    Base64RoundTrip(key);
    SplitJoin(["", "argon2id", "v=" + Itoa(VERSION), PrintParams(p), Base64Encode(salt), Base64Encode(key)], '$');
  }

  /** Parsing undoes printing, for all values of the fields' types, up to the limits of the parser. */
  lemma ParseOfPrint(p: Params, salt: seq<byte>, key: seq<byte>)
    ensures Parse(Print(p, salt, key)) == Expected(p, salt, key)
  {
    FieldsOfPrinted(p, salt, key);
    ParametersRoundTrip(p);
    Base64RoundTrip(salt);
    Base64RoundTrip(key);
  }

  // ------------------------------------------------ which strings are accepted

  function CostText(m: string, t: string, p: string): string { "m=" + m + ",t=" + t + ",p=" + p }

  /** A decimal number from one to the maximum; it may have leading zeros. */
  predicate IsNumber(s: string, n: nat, maximum: nat) { s != "" && AllDigits(s) && DecimalValue(s) == n && 1 <= n <= maximum }

  ghost predicate SpellsCosts(s: string, p: Params) {
    exists m, t, lanes :: s == CostText(m, t, lanes)
      && IsNumber(m, p.memory, 131072) && IsNumber(t, p.time, 6) && IsNumber(lanes, p.threads, 8)
  }

  ghost predicate SpellsHash(s: string, h: Parsed, costs: string, salt: string, key: string)
    requires h.Ok?
  {
    && s == Join(["", "argon2id", "v=19", costs, salt, key], '$')
    && SpellsCosts(costs, h.params) && 8 * h.params.threads <= h.params.memory
    && Base64Decode(salt) == Some(h.salt) && 8 <= |h.salt| <= 64
    && Base64Decode(key) == Some(h.key) && 16 <= |h.key| <= 64 && h.params.keyLen == |h.key|
  }

  lemma {:induction false} NumberMeaning(value: string, prefix: string, n: nat, maximum: nat)
    requires maximum < 0x1_0000_0000
    ensures ParseParameter(value, prefix, maximum) == Some(n)
       <==> HasPrefix(value, prefix) && IsNumber(value[|prefix|..], n, maximum)
  {
  }

  lemma {:induction false} CostsInThree(s: string)
    requires |Split(s, ',')| == 3
    ensures var v := Split(s, ','); s == v[0] + "," + v[1] + "," + v[2]
  {
    var v := Split(s, ',');
    JoinSplit(s, ',');
    assert Join(v, ',') == v[0] + [','] + Join(v[1..], ',') && Join(v[1..], ',') == v[1] + [','] + Join(v[1..][1..], ',');
    assert v[1..][1..] == [v[2]];
  }

  lemma DigitsOnly(s: string)
    requires AllDigits(s)
    ensures ',' !in s && '$' !in s
  {
  }

  lemma {:induction false} JoinThree(a: string, b: string, c: string)
    ensures Join([a, b, c], ',') == a + "," + b + "," + c
  {
    assert [a, b, c][1..] == [b, c] && [b, c][1..] == [c];
    assert Join([b, c], ',') == b + [','] + c;
  }

  lemma {:induction false} ThreeCosts(m: string, t: string, p: string)
    requires AllDigits(m) && AllDigits(t) && AllDigits(p)
    ensures Split(CostText(m, t, p), ',') == ["m=" + m, "t=" + t, "p=" + p] && '$' !in CostText(m, t, p)
  {
    DigitsOnly(m);
    DigitsOnly(t);
    DigitsOnly(p);
    JoinThree("m=" + m, "t=" + t, "p=" + p);
    assert CostText(m, t, p) == "m=" + m + "," + ("t=" + t) + "," + ("p=" + p);
    SplitJoin(["m=" + m, "t=" + t, "p=" + p], ',');
  }

  lemma {:induction false} CostsMeaning(s: string, p: Params)
    ensures ParseParameters(s) == Some(p.(keyLen := 0)) <==> SpellsCosts(s, p) && 8 * p.threads <= p.memory
    ensures ParseParameters(s).Some? ==> ParseParameters(s).value.keyLen == 0
  {
    if ParseParameters(s) == Some(p.(keyLen := 0)) {
      ParsedCosts(s, p);
    }
    if SpellsCosts(s, p) && 8 * p.threads <= p.memory {
      SpelledCosts(s, p);
    }
  }

  lemma {:induction false} ParsedCosts(s: string, p: Params)
    requires ParseParameters(s) == Some(p.(keyLen := 0))
    ensures SpellsCosts(s, p) && 8 * p.threads <= p.memory
  {
    var v := Split(s, ',');
    CostsInThree(s);
    NumberMeaning(v[0], "m=", p.memory, MAX_MEMORY);
    NumberMeaning(v[1], "t=", p.time, MAX_TIME);
    NumberMeaning(v[2], "p=", p.threads, MAX_THREADS);
    var m, t, lanes := v[0][2..], v[1][2..], v[2][2..];
    assert v[0] == "m=" + m && v[1] == "t=" + t && v[2] == "p=" + lanes;
    assert s == CostText(m, t, lanes);
  }

  lemma {:induction false} SpelledCosts(s: string, p: Params)
    requires SpellsCosts(s, p) && 8 * p.threads <= p.memory
    ensures ParseParameters(s) == Some(p.(keyLen := 0))
  {
    var v := Split(s, ',');
    var m, t, lanes :| s == CostText(m, t, lanes)
      && IsNumber(m, p.memory, 131072) && IsNumber(t, p.time, 6) && IsNumber(lanes, p.threads, 8);
    ThreeCosts(m, t, lanes);
    assert v[0][2..] == m && v[1][2..] == t && v[2][2..] == lanes;
    NumberMeaning(v[0], "m=", p.memory, MAX_MEMORY);
    NumberMeaning(v[1], "t=", p.time, MAX_TIME);
    NumberMeaning(v[2], "p=", p.threads, MAX_THREADS);
  }

  lemma {:induction false} NoSeparatorInBase64(s: string)
    requires LetterValues(s).Some?
    ensures '$' !in s
  {
    if s != "" {
      NoSeparatorInBase64(s[1..]);
      assert s == [s[0]] + s[1..];
    }
  }

  lemma VersionText()
    ensures "v=" + Itoa(VERSION) == "v=19" && '$' !in "v=19" && '$' !in "argon2id"
  {
    assert Itoa(19) == Itoa(1) + [Digit(9)] && Itoa(1) == [Digit(1)];
  }

  lemma {:induction false} AcceptedSplits(s: string, h: Parsed)
    requires h.Ok? && Parse(s) == h
    ensures var parts := Split(s, '$'); |parts| == 6 && SpellsHash(s, h, parts[3], parts[4], parts[5])
  {
    var parts := Split(s, '$');
    VersionText();
    JoinSplit(s, '$');
    assert parts == ["", "argon2id", "v=19", parts[3], parts[4], parts[5]];
    CostsMeaning(parts[3], ParseParameters(parts[3]).value);
    CostsMeaning(parts[3], h.params);
  }

  lemma {:induction false} SpelledIsAccepted(s: string, h: Parsed, costs: string, salt: string, key: string)
    requires h.Ok? && SpellsHash(s, h, costs, salt, key)
    ensures Parse(s) == h
  {
    var fields := ["", "argon2id", "v=19", costs, salt, key];
    VersionText();
    CostsMeaning(costs, h.params);
    SpelledCostsHaveNoSeparator(costs, h.params);
    NoSeparatorInBase64(salt);
    NoSeparatorInBase64(key);
    SplitJoin(fields, '$');
  }

  lemma {:induction false} SpelledCostsHaveNoSeparator(costs: string, p: Params)
    requires SpellsCosts(costs, p)
    ensures '$' !in costs
  {
    var m, t, lanes :| costs == CostText(m, t, lanes)
      && IsNumber(m, p.memory, 131072) && IsNumber(t, p.time, 6) && IsNumber(lanes, p.threads, 8);
    ThreeCosts(m, t, lanes);
  }

  /**
   * The accepted strings, exactly: six fields with this algorithm, this version, three decimal costs within
   * their limits and at least eight blocks a lane, a salt and a key of permitted lengths.
   */
  lemma {:induction false} AcceptedIff(s: string, h: Parsed)
    requires h.Ok?
    ensures Parse(s) == h <==> exists costs, salt, key :: SpellsHash(s, h, costs, salt, key)
  {
    if Parse(s) == h {
      AcceptedSplits(s, h);
    }
    if exists costs, salt, key :: SpellsHash(s, h, costs, salt, key) {
      var costs, salt, key :| SpellsHash(s, h, costs, salt, key);
      SpelledIsAccepted(s, h, costs, salt, key);
    }
  }

  /** A string with another algorithm, another version or another number of fields is refused for its format, and only such. */
  lemma {:induction false} FormatIff(s: string)
    ensures Parse(s) != BadFormat <==> exists costs, salt, key :: OfFormat(s, costs, salt, key)
  {
    var parts := Split(s, '$');
    VersionText();
    if Parse(s) != BadFormat {
      JoinSplit(s, '$');
      assert parts == ["", "argon2id", "v=19", parts[3], parts[4], parts[5]];
      assert OfFormat(s, parts[3], parts[4], parts[5]);
    }
    if exists costs, salt, key :: OfFormat(s, costs, salt, key) {
      var costs, salt, key :| OfFormat(s, costs, salt, key);
      SplitJoin(["", "argon2id", "v=19", costs, salt, key], '$');
    }
  }

  predicate OfFormat(s: string, costs: string, salt: string, key: string) {
    '$' !in costs && '$' !in salt && '$' !in key && s == Join(["", "argon2id", "v=19", costs, salt, key], '$')
  }

  /** Whatever the string, an accepted hash is within the limits, and printing it is a normal form. */
  lemma AcceptedIsWithinLimits(s: string)
    requires Parse(s).Ok?
    ensures var r := Parse(s);
      && CostsAllowed(r.params) && 8 <= |r.salt| <= 64 && 16 <= |r.key| <= 64 && r.params.keyLen == |r.key|
      && Parse(Print(r.params, r.salt, r.key)) == r
  {
    var r := Parse(s);
    ParseOfPrint(r.params, r.salt, r.key);
  }
}
