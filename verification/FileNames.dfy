/** Stream subject file names (eventfs-protocol/src/file_names.rs): plain subjects keep their text, any
    other is written as the base 16 form (section 8 of RFC 4648, in lower case) of its UTF-8 bytes. */
module FileNames {
  import opened Text

  type Byte = x: int | 0 <= x < 256

  // ---- UTF-8 ----

  function EncodeChar(c: char): (bytes: seq<Byte>)
    ensures bytes != []
  {
    var n := c as int;
    if n < 0x80 then [n]
    else if n < 0x800 then [0xC0 + n / 64, 0x80 + n % 64]
    else if n < 0x10000 then [0xE0 + n / 4096, 0x80 + n / 64 % 64, 0x80 + n % 64]
    else [0xF0 + n / 262144, 0x80 + n / 4096 % 64, 0x80 + n / 64 % 64, 0x80 + n % 64]
  }

  /** `str::as_bytes`. */
  function Utf8(s: string): seq<Byte> {
    if s == "" then [] else EncodeChar(s[0]) + Utf8(s[1..])
  }

  predicate Continues(bytes: seq<Byte>, count: nat) {
    |bytes| > count && forall i :: 1 <= i <= count ==> 0x80 <= bytes[i] < 0xC0
  }

  predicate IsScalar(n: int) {
    0 <= n < 0xD800 || 0xE000 <= n < 0x110000
  }

  /** One character and its length; overlong forms and surrogates are refused. */
  function DecodeChar(bytes: seq<Byte>): Option<(char, nat)>
    requires bytes != []
  {
    var b: int := bytes[0];
    if b < 0x80 then Some((b as char, 1))
    else if 0xC0 <= b < 0xE0 && Continues(bytes, 1) then
      var n := (b - 0xC0) * 64 + Low(bytes[1]);
      if n >= 0x80 then Some((n as char, 2)) else None
    else if 0xE0 <= b < 0xF0 && Continues(bytes, 2) then
      var n := (b - 0xE0) * 4096 + Low(bytes[1]) * 64 + Low(bytes[2]);
      if n >= 0x800 && IsScalar(n) then Some((n as char, 3)) else None
    else if 0xF0 <= b < 0xF8 && Continues(bytes, 3) then
      var n := (b - 0xF0) * 262144 + Low(bytes[1]) * 4096 + Low(bytes[2]) * 64 + Low(bytes[3]);
      if n >= 0x10000 && IsScalar(n) then Some((n as char, 4)) else None
    else None
  }

  function Low(b: Byte): int { b as int - 0x80 }

  /** `String::from_utf8`. */
  function FromUtf8(bytes: seq<Byte>): Option<string>
    decreases |bytes|
  {
    if bytes == [] then Some("")
    else
      var first := DecodeChar(bytes);
      if first == None || first.value.1 == 0 || first.value.1 > |bytes| then None
      else
        var rest := FromUtf8(bytes[first.value.1..]);
        if rest == None then None else Some([first.value.0] + rest.value)
  }

  /** The digits of a number in base 64. */
  lemma Base64Digits(n: nat)
    ensures n == n / 64 * 64 + n % 64
    ensures n / 64 == n / 4096 * 64 + n / 64 % 64
    ensures n / 4096 == n / 262144 * 64 + n / 4096 % 64
  {
  }

  lemma DecodeEncodedChar(c: char, rest: seq<Byte>)
    ensures DecodeChar(EncodeChar(c) + rest) == Some((c, |EncodeChar(c)|))
  {
    hide DecodeChar;
    var n := c as int;
    if n < 0x80 {
      DecodeOne(n, rest);
    } else if n < 0x800 {
      DecodeTwo(n, rest);
    } else if n < 0x10000 {
      DecodeThree(n, rest);
    } else {
      DecodeFour(n, rest);
    }
  }

  lemma DecodeOne(n: nat, rest: seq<Byte>)
    requires n < 0x80
    ensures DecodeChar([n] + rest) == Some((n as char, 1))
  {
  }

  lemma DecodeTwo(n: nat, rest: seq<Byte>)
    requires 0x80 <= n < 0x800
    ensures DecodeChar([0xC0 + n / 64, 0x80 + n % 64] + rest) == Some((n as char, 2))
  {
    Base64Digits(n);
  }

  lemma DecodeThree(n: nat, rest: seq<Byte>)
    requires 0x800 <= n < 0x10000 && IsScalar(n)
    ensures DecodeChar([0xE0 + n / 4096, 0x80 + n / 64 % 64, 0x80 + n % 64] + rest) == Some((n as char, 3))
  {
    Base64Digits(n);
  }

  lemma DecodeFour(n: nat, rest: seq<Byte>)
    requires 0x10000 <= n < 0x110000
    ensures DecodeChar([0xF0 + n / 262144, 0x80 + n / 4096 % 64, 0x80 + n / 64 % 64, 0x80 + n % 64] + rest) ==
            Some((n as char, 4))
  {
    Base64Digits(n);
  }

  lemma {:induction false} Utf8RoundTrip(s: string)
    ensures FromUtf8(Utf8(s)) == Some(s)
  {
    if s != "" {
      var first := EncodeChar(s[0]);
      DecodeEncodedChar(s[0], Utf8(s[1..]));
      Utf8RoundTrip(s[1..]);
      assert Utf8(s)[|first|..] == Utf8(s[1..]);
      assert [s[0]] + s[1..] == s;
    }
  }

  // ---- base 16 ----

  function HexDigit(d: nat): char
    requires d < 16
  {
    if d < 10 then '0' + d as char else 'a' + (d - 10) as char
  }

  function HexDigits(b: Byte): string {
    [HexDigit(b / 16), HexDigit(b % 16)]
  }

  function Hex(bytes: seq<Byte>): (s: string)
    ensures |s| == 2 * |bytes|
  {
    if bytes == [] then "" else Hex(bytes[..|bytes| - 1]) + HexDigits(bytes[|bytes| - 1])
  }

  /** `hex_encode`, the loop. */
  method HexEncode(bytes: seq<Byte>) returns (encoded: string)
    ensures encoded == Hex(bytes)
  {
    encoded := "";
    for i := 0 to |bytes|
      invariant encoded == Hex(bytes[..i])
    {
      assert bytes[..i + 1][..i] == bytes[..i];
      encoded := encoded + [HexDigit(bytes[i] / 16)];
      encoded := encoded + [HexDigit(bytes[i] % 16)];
    }
    assert bytes[..|bytes|] == bytes;
  }

  function HexValue(c: char): (v: Option<nat>)
    ensures v.Some? ==> v.value < 16
  {
    if '0' <= c <= '9' then Some(c as int - '0' as int)
    else if 'a' <= c <= 'f' then Some(c as int - 'a' as int + 10)
    else if 'A' <= c <= 'F' then Some(c as int - 'A' as int + 10)
    else None
  }

  /** The pairs of a text of even length. */
  function UnhexPairs(s: string): Option<seq<Byte>> {
    if |s| < 2 then Some([])
    else
      var front := UnhexPairs(s[..|s| - 2]);
      var high, low := HexValue(s[|s| - 2]), HexValue(s[|s| - 1]);
      if front == None || high == None || low == None then None
      else Some(front.value + [high.value * 16 + low.value])
  }

  /** `hex_decode`. */
  function Unhex(s: string): Option<seq<Byte>> {
    if s == "" || |s| % 2 != 0 then None else UnhexPairs(s)
  }

  lemma {:induction false} UnhexHex(bytes: seq<Byte>)
    ensures UnhexPairs(Hex(bytes)) == Some(bytes)
  {
    hide UnhexPairs, HexDigits, Hex;
    if bytes == [] {
      NothingHex();
    } else {
      var front, last := bytes[..|bytes| - 1], bytes[|bytes| - 1];
      UnhexHex(front);
      HexStep(bytes);
      UnhexOneMore(Hex(front), last);
      assert front + [last] == bytes;
    }
  }

  lemma NothingHex()
    ensures Hex([]) == "" && UnhexPairs("") == Some([])
  {
  }

  lemma HexStep(bytes: seq<Byte>)
    requires bytes != []
    ensures Hex(bytes) == Hex(bytes[..|bytes| - 1]) + HexDigits(bytes[|bytes| - 1])
  {
    hide HexDigits;
  }

  lemma UnhexStep(t: string, high: char, low: char)
    requires UnhexPairs(t).Some? && HexValue(high).Some? && HexValue(low).Some?
    ensures UnhexPairs(t + [high, low]) == Some(UnhexPairs(t).value + [HexValue(high).value * 16 + HexValue(low).value])
  {
    hide HexValue;
    var s := t + [high, low];
    assert s[..|s| - 2] == t;
  }

  lemma UnhexOneMore(t: string, b: Byte)
    requires UnhexPairs(t).Some?
    ensures UnhexPairs(t + HexDigits(b)) == Some(UnhexPairs(t).value + [b])
  {
    hide UnhexPairs, HexValue, HexDigit;
    HexDigitValue(b / 16);
    HexDigitValue(b % 16);
    UnhexStep(t, HexDigit(b / 16), HexDigit(b % 16));
  }

  lemma HexDigitValue(d: nat)
    requires d < 16
    ensures HexValue(HexDigit(d)) == Some(d)
  {
  }

  // ---- file names ----

  const ENCODED_PREFIX: string := "__eventfs_subject_hex_"
  const JSONL_SUFFIX: string := ".jsonl"

  predicate IsAlnum(c: char) {
    '0' <= c <= '9' || 'a' <= c <= 'z' || 'A' <= c <= 'Z'
  }

  predicate HasDoubleDot(s: string) {
    exists i :: 0 <= i < |s| - 1 && s[i] == '.' && s[i + 1] == '.'
  }

  /** `is_plain_subject_file_stem`. */
  predicate IsPlainStem(s: string) {
    && !StartsWith(s, ENCODED_PREFIX) && s != "" && s[0] != '.' && s[|s| - 1] != '.' && !HasDoubleDot(s)
    && forall i :: 0 <= i < |s| ==> IsAlnum(s[i]) || s[i] == '_' || s[i] == '-' || s[i] == '.'
  }

  /** `stream_subject_file_name_from_str`. */
  function SubjectFileName(subject: string): string {
    if IsPlainStem(subject) then subject + JSONL_SUFFIX else ENCODED_PREFIX + Hex(Utf8(subject)) + JSONL_SUFFIX
  }

  function StripSuffix(s: string, suffix: string): Option<string> {
    if EndsWith(s, suffix) then Some(s[..|s| - |suffix|]) else None
  }

  /** `parse_stream_subject_file_name`; `None` is its error. */
  function ParseSubjectFileName(name: string): Option<string> {
    var stem := StripSuffix(name, JSONL_SUFFIX);
    if stem == None then None
    else if StartsWith(stem.value, ENCODED_PREFIX) then DecodeSubject(stem.value[|ENCODED_PREFIX|..])
    else if IsPlainStem(stem.value) then stem else None
  }

  function DecodeSubject(hex: string): Option<string> {
    var bytes := Unhex(hex);
    if bytes == None then None else FromUtf8(bytes.value)
  }

  lemma StripAppended(s: string, suffix: string)
    ensures StripSuffix(s + suffix, suffix) == Some(s)
  {
    assert (s + suffix)[|s|..] == suffix;
    assert (s + suffix)[..|s|] == s;
  }

  lemma DropPrefix(prefix: string, s: string)
    ensures StartsWith(prefix + s, prefix) && (prefix + s)[|prefix|..] == s
  {
  }

  lemma DecodeSubjectHex(subject: string)
    ensures DecodeSubject(Hex(Utf8(subject))) == if subject == "" then None else Some(subject)
  {
    hide UnhexPairs, FromUtf8, EncodeChar, Hex;
    UnhexHex(Utf8(subject));
    Utf8RoundTrip(subject);
    assert subject != "" ==> Utf8(subject) == EncodeChar(subject[0]) + Utf8(subject[1..]);
  }

  /** The base 16 name of a subject decodes to it, whether or not the subject also has a plain name. */
  lemma EncodedNameDecodes(subject: string)
    ensures ParseSubjectFileName(ENCODED_PREFIX + Hex(Utf8(subject)) + JSONL_SUFFIX) ==
            if subject == "" then None else Some(subject)
  {
    hide *;
    var hex := Hex(Utf8(subject));
    StripAppended(ENCODED_PREFIX + hex, JSONL_SUFFIX);
    DropPrefix(ENCODED_PREFIX, hex);
    DecodeSubjectHex(subject);
    assert ParseSubjectFileName(ENCODED_PREFIX + hex + JSONL_SUFFIX) == DecodeSubject(hex) by {
      ParsePrefixed(ENCODED_PREFIX + hex, ENCODED_PREFIX + hex + JSONL_SUFFIX);
    }
  }

  lemma ParsePrefixed(stem: string, name: string)
    requires StripSuffix(name, JSONL_SUFFIX) == Some(stem) && StartsWith(stem, ENCODED_PREFIX)
    ensures ParseSubjectFileName(name) == DecodeSubject(stem[|ENCODED_PREFIX|..])
  {
  }

  /** Decoding the name of any non-empty subject returns it; the empty subject's name is refused. */
  lemma SubjectFileNameRoundTrip(subject: string)
    ensures ParseSubjectFileName(SubjectFileName(subject)) == if subject == "" then None else Some(subject)
  {
    if IsPlainStem(subject) {
      StripAppended(subject, JSONL_SUFFIX);
    } else {
      EncodedNameDecodes(subject);
    }
  }

  /** No two subjects share a file name. */
  lemma SubjectFileNameInjective(a: string, b: string)
    requires SubjectFileName(a) == SubjectFileName(b)
    ensures a == b
  {
    SubjectFileNameRoundTrip(a);
    SubjectFileNameRoundTrip(b);
  }

  lemma {:induction false} HexIsPlain(bytes: seq<Byte>)
    ensures forall c :: c in Hex(bytes) ==> IsAlnum(c)
  {
    if bytes != [] {
      HexIsPlain(bytes[..|bytes| - 1]);
      HexStep(bytes);
      hide Hex;
      assert forall d: nat :: d < 16 ==> IsAlnum(HexDigit(d));
    }
  }

  /** The name of any subject can stand in a directory, and ends in the suffix; a plain subject keeps its own
      text as its name. */
  lemma SubjectFileNameIsOneComponent(subject: string)
    ensures var name := SubjectFileName(subject);
            && '/' !in name && '\0' !in name && name != "." && name != ".." && EndsWith(name, ".jsonl")
            && (IsPlainStem(subject) ==> name == subject + ".jsonl")
  {
    hide Hex, Utf8;
    HexIsPlain(Utf8(subject));
    var name := SubjectFileName(subject);
    var stem := name[..|name| - |JSONL_SUFFIX|];
    assert name == stem + JSONL_SUFFIX && name[|name| - |JSONL_SUFFIX|..] == JSONL_SUFFIX;
    if !IsPlainStem(subject) {
      assert stem == ENCODED_PREFIX + Hex(Utf8(subject));
    } else {
      assert stem == subject;
      assert forall c :: c in subject ==> c != '/' && c != '\0';
    }
  }

  lemma KnownBytes()
    ensures Utf8("\U{E9}") == [0xC3, 0xA9] && Utf8("\U{20AC}") == [0xE2, 0x82, 0xAC]
  {
  }

  lemma KnownHex()
    ensures Hex([0xC3, 0xA9]) == "c3a9" && Hex([0xE2, 0x82, 0xAC]) == "e282ac"
  {
  }

  /** Subjects of a two and a three byte character, as their files are called. */
  lemma KnownNames()
    ensures SubjectFileName("\U{E9}") == "__eventfs_subject_hex_c3a9.jsonl"
    ensures SubjectFileName("\U{20AC}") == "__eventfs_subject_hex_e282ac.jsonl"
  {
    hide Hex, Utf8;
    KnownBytes();
    KnownHex();
    assert !IsPlainStem("\U{E9}") by { assert "\U{E9}"[0] == '\U{E9}'; }
    assert !IsPlainStem("\U{20AC}") by { assert "\U{20AC}"[0] == '\U{20AC}'; }
    hide IsPlainStem;
  }
}
