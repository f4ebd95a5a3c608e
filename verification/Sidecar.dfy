/** The text of a backup's `.sha256` sidecar: writing it, reading it, and when reading accepts it. */
module Sidecar {
  import opened Wrappers

  // --------------------------------------------------------------------- hex

  function HexDigit(n: int): char
    requires 0 <= n < 16
  {
    if n < 10 then ('0' as int + n) as char else ('a' as int + n - 10) as char
  }

  function HexValue(c: char): Option<int> {
    if '0' <= c <= '9' then Some(c as int - '0' as int)
    else if 'a' <= c <= 'f' then Some(c as int - 'a' as int + 10)
    else if 'A' <= c <= 'F' then Some(c as int - 'A' as int + 10)
    else None
  }

  function HexEncode(bs: seq<byte>): string {
    if bs == [] then "" else [HexDigit(bs[0] / 16), HexDigit(bs[0] % 16)] + HexEncode(bs[1..])
  }

  function HexDecode(s: string): Option<seq<byte>> {
    if s == "" then Some([])
    else if |s| == 1 then None
    else
      match (HexValue(s[0]), HexValue(s[1]), HexDecode(s[2..]))
      case (Some(hi), Some(lo), Some(rest)) =>
        var b := hi * 16 + lo;
        if 0 <= b < 256 then Some([b as byte] + rest) else None
      case _ => None
  }

  predicate LowerHex(c: char) { c in "0123456789abcdef" && !IsSpace(c) }

  lemma HexDigitBack(n: int)
    requires 0 <= n < 16
    ensures HexValue(HexDigit(n)) == Some(n) && LowerHex(HexDigit(n))
  {
  }

  lemma {:induction false} DecodeStep(a: char, b: char, rest: string, first: byte, bs: seq<byte>)
    requires HexValue(a) == Some(first / 16) && HexValue(b) == Some(first % 16) && HexDecode(rest) == Some(bs)
    ensures HexDecode([a, b] + rest) == Some([first] + bs)
  {
    assert ([a, b] + rest)[2..] == rest;
  }

  lemma {:induction false} HexRoundTrip(bs: seq<byte>)
    ensures HexDecode(HexEncode(bs)) == Some(bs)
    ensures |HexEncode(bs)| == 2 * |bs|
    ensures forall c :: c in HexEncode(bs) ==> LowerHex(c)
  {
    if bs != [] {
      var a, b, rest := HexDigit(bs[0] / 16), HexDigit(bs[0] % 16), HexEncode(bs[1..]);
      HexRoundTrip(bs[1..]);
      HexDigitBack(bs[0] / 16);
      HexDigitBack(bs[0] % 16);
      DecodeStep(a, b, rest, bs[0], bs[1..]);
      assert [bs[0]] + bs[1..] == bs && HexEncode(bs) == [a, b] + rest;
    }
  }

  /** `c` is the hexadecimal digit of `n`, in either case. */
  predicate IsDigitOf(c: char, n: int) {
    0 <= n < 16 && (c == "0123456789abcdef"[n] || c == "0123456789ABCDEF"[n])
  }

  /** Two digits a byte. */
  predicate Spells(word: string, bs: seq<byte>) {
    && |word| == 2 * |bs|
    && forall i :: 0 <= i < |bs| ==> IsDigitOf(word[2 * i], bs[i] / 16) && IsDigitOf(word[2 * i + 1], bs[i] % 16)
  }

  lemma DigitMeaning(c: char, n: int)
    ensures HexValue(c) == Some(n) <==> IsDigitOf(c, n)
    ensures HexValue(c).Some? ==> 0 <= HexValue(c).value < 16
  {
    if 0 <= n < 10 {
      LowDigits(n);
    } else if 10 <= n < 16 {
      HighDigits(n);
    }
  }

  lemma LowDigits(n: nat)
    requires n < 10
    ensures "0123456789abcdef"[n] == "0123456789ABCDEF"[n] == ('0' as int + n) as char
  {
    assert n == 0 || n == 1 || n == 2 || n == 3 || n == 4 || n == 5 || n == 6 || n == 7 || n == 8 || n == 9;
  }

  lemma HighDigits(n: nat)
    requires 10 <= n < 16
    ensures "0123456789abcdef"[n] == ('a' as int + n - 10) as char
    ensures "0123456789ABCDEF"[n] == ('A' as int + n - 10) as char
  {
    assert n == 10 || n == 11 || n == 12 || n == 13 || n == 14 || n == 15;
  }

  lemma {:induction false} SpellsInOrder(word: string, bs: seq<byte>)
    requires |word| >= 2 && bs != []
    ensures Spells(word, bs) <==> IsDigitOf(word[0], bs[0] / 16) && IsDigitOf(word[1], bs[0] % 16) && Spells(word[2..], bs[1..])
  {
    if Spells(word, bs) {
      SpellsRest(word, bs);
    }
    if Spells(word[2..], bs[1..]) && IsDigitOf(word[0], bs[0] / 16) && IsDigitOf(word[1], bs[0] % 16) {
      SpellsWhole(word, bs);
    }
  }

  lemma {:induction false} SpellsRest(word: string, bs: seq<byte>)
    requires bs != [] && Spells(word, bs)
    ensures IsDigitOf(word[0], bs[0] / 16) && IsDigitOf(word[1], bs[0] % 16) && Spells(word[2..], bs[1..])
  {
    forall i | 0 <= i < |bs| - 1
      ensures IsDigitOf(word[2..][2 * i], bs[1..][i] / 16) && IsDigitOf(word[2..][2 * i + 1], bs[1..][i] % 16)
    {
      assert word[2..][2 * i] == word[2 * (i + 1)] && word[2..][2 * i + 1] == word[2 * (i + 1) + 1];
    }
    assert IsDigitOf(word[2 * 0], bs[0] / 16);
  }

  lemma {:induction false} SpellsWhole(word: string, bs: seq<byte>)
    requires |word| >= 2 && bs != [] && Spells(word[2..], bs[1..])
    requires IsDigitOf(word[0], bs[0] / 16) && IsDigitOf(word[1], bs[0] % 16)
    ensures Spells(word, bs)
  {
    forall i | 0 <= i < |bs| ensures IsDigitOf(word[2 * i], bs[i] / 16) && IsDigitOf(word[2 * i + 1], bs[i] % 16) {
      if i > 0 {
        assert word[2..][2 * (i - 1)] == word[2 * i] && word[2..][2 * (i - 1) + 1] == word[2 * i + 1];
        assert bs[1..][i - 1] == bs[i];
      }
    }
  }

  /** Decoding accepts exactly the spellings, in upper or lower case. */
  lemma {:induction false} HexDecodeIff(word: string, bs: seq<byte>)
    ensures HexDecode(word) == Some(bs) <==> Spells(word, bs)
  {
    if |word| < 2 {
    } else if bs == [] {
      assert !Spells(word, bs);
    } else {
      HexDecodeIff(word[2..], bs[1..]);
      SpellsInOrder(word, bs);
      DigitMeaning(word[0], bs[0] / 16);
      DigitMeaning(word[1], bs[0] % 16);
      DecodedPair(word, bs);
    }
  }

  lemma {:induction false} DecodedPair(word: string, bs: seq<byte>)
    requires |word| >= 2 && bs != []
    ensures HexDecode(word) == Some(bs) <==>
            && HexValue(word[0]) == Some(bs[0] / 16) && HexValue(word[1]) == Some(bs[0] % 16)
            && HexDecode(word[2..]) == Some(bs[1..])
  {
    if HexValue(word[0]).Some? && HexValue(word[1]).Some? {
      DigitMeaning(word[0], HexValue(word[0]).value);
      DigitMeaning(word[1], HexValue(word[1]).value);
      assert [bs[0]] + bs[1..] == bs;
      if HexDecode(word) == Some(bs) {
        assert bs[1..] == HexDecode(word[2..]).value;
      }
    }
  }

  // ------------------------------------------------------------------ fields

  /** Go's `unicode.IsSpace`. */
  predicate IsSpace(c: char) {
    || c in "\t\n\r "
    || c as int in {0x0B, 0x0C, 0x85, 0xA0, 0x1680, 0x2028, 0x2029, 0x202F, 0x205F, 0x3000}
    || 0x2000 <= c as int <= 0x200A
  }

  predicate NoSpace(s: string) { forall c :: c in s ==> !IsSpace(c) }
  predicate AllSpace(s: string) { forall c :: c in s ==> IsSpace(c) }

  function Words(word: string): seq<string> { if word == "" then [] else [word] }

  /** `strings.Fields` of `word + s`, where `word` is the field being read. */
  function FieldsFrom(s: string, word: string): seq<string> {
    if s == "" then Words(word)
    else if IsSpace(s[0]) then Words(word) + FieldsFrom(s[1..], "")
    else FieldsFrom(s[1..], word + [s[0]])
  }

  function Fields(s: string): seq<string> { FieldsFrom(s, "") }

  lemma {:induction false} FieldsSkipWord(w: string, rest: string, word: string)
    requires NoSpace(w)
    ensures FieldsFrom(w + rest, word) == FieldsFrom(rest, word + w)
  {
    if w == "" {
      assert w + rest == rest && word + w == word;
    } else {
      assert (w + rest)[1..] == w[1..] + rest;
      FieldsSkipWord(w[1..], rest, word + [w[0]]);
      assert word + [w[0]] + w[1..] == word + w;
    }
  }

  lemma {:induction false} FieldsAllSpace(s: string)
    requires AllSpace(s)
    ensures FieldsFrom(s, "") == []
  {
    if s != "" {
      FieldsAllSpace(s[1..]);
    }
  }

  /** The first field has no space, and consists of characters of the text. */
  lemma {:induction false} FirstField(s: string, word: string)
    requires NoSpace(word) && (word != "" || !AllSpace(s))
    ensures var fs := FieldsFrom(s, word);
      fs != [] && NoSpace(fs[0]) && forall c :: c in fs[0] ==> c in word || c in s
  {
    if s != "" {
      if IsSpace(s[0]) {
        if word == "" {
          FirstField(s[1..], "");
        }
      } else {
        FirstField(s[1..], word + [s[0]]);
      }
    }
  }

  // -------------------------------------------------------------- file names

  function StripSlashes(path: string): string {
    if path != "" && path[|path| - 1] == '/' then StripSlashes(path[..|path| - 1]) else path
  }

  function AfterLastSlash(path: string): (r: string)
    ensures '/' !in r
  {
    if path == "" || path[|path| - 1] == '/' then ""
    else AfterLastSlash(path[..|path| - 1]) + [path[|path| - 1]]
  }

  /** `filepath.Base`. */
  function Base(path: string): string {
    if path == "" then "."
    else if StripSlashes(path) == "" then "/"
    else AfterLastSlash(StripSlashes(path))
  }

  lemma {:induction false} NoSlashNoChange(s: string)
    requires '/' !in s
    ensures StripSlashes(s) == s && AfterLastSlash(s) == s
  {
    if s != "" {
      NoSlashNoChange(s[..|s| - 1]);
      assert s == s[..|s| - 1] + [s[|s| - 1]];
    }
  }

  lemma BaseOfName(s: string)
    requires '/' !in s
    ensures Base(s) == if s == "" then "." else s
  {
    NoSlashNoChange(s);
  }

  /** Slashes at the end do not count. */
  lemma SlashAtEnd(path: string)
    requires path != ""
    ensures Base(path + "/") == Base(path)
  {
    assert (path + "/")[..|path|] == path;
  }

  lemma {:induction false} StripEnds(path: string)
    ensures StripSlashes(path) == "" || StripSlashes(path)[|StripSlashes(path)| - 1] != '/'
  {
    if path != "" && path[|path| - 1] == '/' {
      StripEnds(path[..|path| - 1]);
    }
  }

  lemma BaseShape(path: string)
    ensures Base(path) == "/" || (Base(path) != "" && '/' !in Base(path))
  {
    StripEnds(path);
  }

  // ----------------------------------------------------------------- sidecar

  datatype Refusal = EmptyText | InvalidDigest | OtherFile | Mismatch
  datatype Verdict = Verified | NoSidecar | Refused(why: Refusal)

  /** What `backupDatabase` writes next to a backup. */
  function SidecarText(digest: seq<byte>, path: string): string {
    HexEncode(digest) + "  " + Base(path) + "\n"
  }

  function TrimStar(s: string): string { if s != "" && s[0] == '*' then s[1..] else s }

  /** What `verifyBackupChecksum` concludes from the text and the digest of the file. */
  function Verify(text: string, digest: seq<byte>, path: string): Verdict {
    var fields := Fields(text);
    if fields == [] then Refused(EmptyText)
    else
      var expected := HexDecode(fields[0]);
      if expected.None? || |expected.value| != 32 then Refused(InvalidDigest)
      else if |fields| > 1 && Base(TrimStar(fields[1])) != Base(path) then Refused(OtherFile)
      else if expected.value != digest then Refused(Mismatch)
      else Verified
  }

  // ------------------------------------------------- an independent description

  /** `word` is the first word of the text, and `rest` what follows it. */
  predicate FirstWord(text: string, lead: string, word: string, rest: string) {
    text == lead + word + rest && AllSpace(lead) && NoSpace(word) && word != "" && (rest == "" || IsSpace(rest[0]))
  }

  /** After the digest the text ends, or names a file with the backup's base name; a star may stand before it. */
  ghost predicate NamesFile(rest: string, path: string) {
    AllSpace(rest) || exists lead, word, more :: FirstWord(rest, lead, word, more) && Base(TrimStar(word)) == Base(path)
  }

  /** The text records this digest for this file. */
  ghost predicate Records(text: string, digest: seq<byte>, path: string) {
    exists lead, word, rest :: FirstWord(text, lead, word, rest) && |word| == 64 && Spells(word, digest) && NamesFile(rest, path)
  }

  lemma {:induction false} FieldsSkipSpace(lead: string, rest: string)
    requires AllSpace(lead)
    ensures FieldsFrom(lead + rest, "") == FieldsFrom(rest, "")
  {
    if lead == "" {
      assert lead + rest == rest;
    } else {
      assert (lead + rest)[1..] == lead[1..] + rest;
      FieldsSkipSpace(lead[1..], rest);
    }
  }

  lemma {:induction false} FirstWordIsField(text: string, lead: string, word: string, rest: string)
    requires FirstWord(text, lead, word, rest)
    ensures Fields(text) == [word] + Fields(rest)
  {
    assert text == lead + (word + rest);
    FieldsSkipSpace(lead, word + rest);
    FieldsSkipWord(word, rest, "");
    assert "" + word == word;
  }

  /** A text has a first word unless it is all white space. */
  lemma {:induction false} HasFirstWord(text: string) returns (lead: string, word: string, rest: string)
    requires !AllSpace(text)
    ensures FirstWord(text, lead, word, rest)
  {
    if IsSpace(text[0]) {
      lead, word, rest := HasFirstWord(text[1..]);
      lead := [text[0]] + lead;
      assert text == [text[0]] + text[1..];
    } else {
      lead := "";
      word, rest := CutWord(text);
    }
  }

  lemma {:induction false} CutWord(text: string) returns (word: string, rest: string)
    ensures text == word + rest && NoSpace(word) && (rest == "" || IsSpace(rest[0]))
    ensures text != "" && !IsSpace(text[0]) ==> word != ""
  {
    if text == "" || IsSpace(text[0]) {
      word, rest := "", text;
    } else {
      word, rest := CutWord(text[1..]);
      word := [text[0]] + word;
      assert text == [text[0]] + text[1..];
    }
  }

  lemma {:induction false} NamesFileIff(rest: string, path: string)
    ensures NamesFile(rest, path) <==> (Fields(rest) != [] ==> Base(TrimStar(Fields(rest)[0])) == Base(path))
  {
    if AllSpace(rest) {
      FieldsAllSpace(rest);
    } else {
      var lead, word, more := HasFirstWord(rest);
      FirstWordIsField(rest, lead, word, more);
      forall l, w, m | FirstWord(rest, l, w, m) ensures w == word {
        FirstWordIsField(rest, l, w, m);
        assert Fields(rest)[0] == w;
      }
    }
  }

  /** A checksum file is accepted if and only if it records the digest of the file that is restored. */
  lemma {:induction false} VerifiedIff(text: string, digest: seq<byte>, path: string)
    ensures Verify(text, digest, path) == Verified <==> Records(text, digest, path)
    ensures Verify(text, digest, path) != NoSidecar
  {
    if AllSpace(text) {
      FieldsAllSpace(text);
      forall l, w, r | FirstWord(text, l, w, r) ensures false {
        FirstWordIsField(text, l, w, r);
      }
    } else {
      var lead, word, rest := HasFirstWord(text);
      FirstWordIsField(text, lead, word, rest);
      HexDecodeIff(word, digest);
      NamesFileIff(rest, path);
      assert Fields(text)[0] == word && Fields(text)[1..] == Fields(rest);
      assert Verify(text, digest, path) == Verified <==> |word| == 64 && Spells(word, digest) && NamesFile(rest, path);
      SameFirstWord(text, lead, word, rest, digest, path);
    }
  }

  lemma {:induction false} SameFirstWord(text: string, lead: string, word: string, rest: string, digest: seq<byte>, path: string)
    requires FirstWord(text, lead, word, rest)
    ensures Records(text, digest, path) <==> |word| == 64 && Spells(word, digest) && NamesFile(rest, path)
  {
    FirstWordIsField(text, lead, word, rest);
    forall l, w, r | FirstWord(text, l, w, r) ensures w == word && (NamesFile(r, path) <==> NamesFile(rest, path)) {
      FirstWordIsField(text, l, w, r);
      assert Fields(text)[0] == w && Fields(text)[1..] == Fields(r) == Fields(rest);
      NamesFileIff(r, path);
      NamesFileIff(rest, path);
    }
  }

  lemma {:induction false} LineIsAccepted(word: string, rest: string, digest: seq<byte>, path: string)
    requires |word| == 64 && Spells(word, digest) && (rest == "" || IsSpace(rest[0])) && NamesFile(rest, path)
    ensures Verify(word + rest, digest, path) == Verified
  {
    SpellingHasNoSpace(word, digest);
    assert "" + word + rest == word + rest;
    assert FirstWord(word + rest, "", word, rest);
    VerifiedIff(word + rest, digest, path);
  }

  lemma {:induction false} NamedBy(lead: string, name: string, path: string)
    requires AllSpace(lead) && NoSpace(name) && name != "" && Base(TrimStar(name)) == Base(path)
    ensures NamesFile(lead + name + "\n", path)
  {
    assert FirstWord(lead + name + "\n", lead, name, "\n");
  }

  /** The usual checksum lines are accepted: the digest alone, in either case, or with the name, or with a starred name. */
  lemma {:induction false} UsualLines(word: string, digest: seq<byte>, path: string)
    requires |word| == 64 && Spells(word, digest) && PlainName(Base(path)) && Base(path) != "/"
    ensures Verify(word, digest, path) == Verify(word + "\n", digest, path) == Verified
    ensures Verify(word + ("  " + Base(path) + "\n"), digest, path) == Verified
    ensures Verify(word + (" " + ("*" + Base(path)) + "\n"), digest, path) == Verified
  {
    BaseShape(path);
    BaseOfName(Base(path));
    assert TrimStar("*" + Base(path)) == Base(path);
    NamedBy("  ", Base(path), path);
    NamedBy(" ", "*" + Base(path), path);
    assert word + "" == word;
    LineIsAccepted(word, "", digest, path);
    LineIsAccepted(word, "\n", digest, path);
    LineIsAccepted(word, "  " + Base(path) + "\n", digest, path);
    LineIsAccepted(word, " " + ("*" + Base(path)) + "\n", digest, path);
  }

  lemma {:induction false} SpellingHasNoSpace(word: string, bs: seq<byte>)
    requires Spells(word, bs)
    ensures NoSpace(word)
  {
    forall i | 0 <= i < |word| ensures !IsSpace(word[i]) {
      assert IsDigitOf(word[2 * (i / 2)], bs[i / 2] / 16) && IsDigitOf(word[2 * (i / 2) + 1], bs[i / 2] % 16);
      assert i == 2 * (i / 2) || i == 2 * (i / 2) + 1;
      DigitMeaning(word[i], if i % 2 == 0 then bs[i / 2] / 16 else bs[i / 2] % 16);
    }
  }

  lemma {:induction false} SidecarFields(digest: seq<byte>, path: string)
    requires |digest| == 32
    ensures Fields(SidecarText(digest, path)) == [HexEncode(digest)] + Fields(Base(path) + "\n")
  {
    var hex, tail := HexEncode(digest), Base(path) + "\n";
    HexRoundTrip(digest);
    assert SidecarText(digest, path) == hex + ("  " + tail);
    WordThenSpaces(hex, tail);
  }

  lemma {:induction false} WordThenSpaces(word: string, tail: string)
    requires NoSpace(word) && word != ""
    ensures Fields(word + ("  " + tail)) == [word] + Fields(tail)
  {
    FieldsSkipWord(word, "  " + tail, "");
    assert ("  " + tail)[1..] == " " + tail && (" " + tail)[1..] == tail;
    assert "" + word == word && FieldsFrom(" " + tail, "") == FieldsFrom(tail, "");
  }

  /** The name a checksum tool can carry: no white space and no leading `*`. */
  predicate PlainName(name: string) { NoSpace(name) && (name == "" || name[0] != '*') }

  lemma NameFieldMatches(name: string)
    requires name != "" && '/' !in name && !AllSpace(name)
    ensures var fs := Fields(name + "\n");
      fs != [] && (Base(TrimStar(fs[0])) == name <==> PlainName(name))
  {
    assert !AllSpace(name + "\n") by {
      var c :| c in name && !IsSpace(c);
      assert c in name + "\n";
    }
    FirstField(name + "\n", "");
    var field := Fields(name + "\n")[0];
    assert '\n' !in field;
    assert '/' !in name + "\n";
    assert '/' !in field && forall c :: c in TrimStar(field) ==> c in field;
    BaseOfName(TrimStar(field));
    if NoSpace(name) {
      FieldsSkipWord(name, "\n", "");
      assert "\n"[1..] == "" && "" + name == name;
      assert field == name;
    } else {
      var c :| c in name && IsSpace(c);
      assert c !in TrimStar(field);
    }
  }

  /**
   * The sidecar of an unchanged file is accepted exactly when the file's name has no white space
   * and no leading `*`, or is nothing but white space.
   */
  lemma SidecarAcceptedIff(digest: seq<byte>, path: string)
    requires |digest| == 32 && Base(path) != "/"
    ensures Verify(SidecarText(digest, path), digest, path) == Verified
            <==> PlainName(Base(path)) || AllSpace(Base(path))
  {
    var name := Base(path);
    SidecarFields(digest, path);
    HexRoundTrip(digest);
    BaseShape(path);
    if AllSpace(name) {
      FieldsAllSpace(name + "\n");
    } else {
      NameFieldMatches(name);
    }
  }

  /** A sidecar is only ever accepted for a file with the digest it records. */
  lemma AcceptedMeansSameDigest(written: seq<byte>, path: string, actual: seq<byte>, other: string)
    requires |written| == 32 && Verify(SidecarText(written, path), actual, other) == Verified
    ensures actual == written
  {
    SidecarFields(written, path);
    HexRoundTrip(written);
  }

  lemma SpacedName(digest: seq<byte>, path: string)
    requires |digest| == 32 && Base(path) != "/" && !AllSpace(Base(path)) && !PlainName(Base(path))
    ensures Verify(SidecarText(digest, path), digest, path) == Refused(OtherFile)
  {
    SidecarFields(digest, path);
    HexRoundTrip(digest);
    BaseShape(path);
    NameFieldMatches(Base(path));
  }

  /** A name that the backup command accepts and the restore command then refuses. */
  lemma NameWithSpaceIsRefused(digest: seq<byte>)
    requires |digest| == 32
    ensures Verify(SidecarText(digest, "/a b"), digest, "/a b") == Refused(OtherFile)
  {
    var name := "a b";
    assert "/" + name == "/a b";
    AfterSlash("/", name);
    assert name[1] in name && IsSpace(name[1]) && name[0] in name && !IsSpace(name[0]);
    SpacedName(digest, "/a b");
  }

  lemma {:induction false} AfterSlash(stem: string, name: string)
    requires stem != "" && stem[|stem| - 1] == '/' && name != "" && '/' !in name
    ensures Base(stem + name) == name
  {
    assert (stem + name)[|stem + name| - 1] == name[|name| - 1];
    AfterSlashName(stem, name);
  }

  lemma {:induction false} AfterSlashName(stem: string, name: string)
    requires stem != "" && stem[|stem| - 1] == '/' && '/' !in name
    ensures AfterLastSlash(stem + name) == name
  {
    if name == "" {
      assert stem + name == stem;
    } else {
      var init := name[..|name| - 1];
      assert (stem + name)[..|stem + name| - 1] == stem + init;
      AfterSlashName(stem, init);
      assert name == init + [name[|name| - 1]];
    }
  }
}
