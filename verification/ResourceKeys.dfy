/** The printed keys of agent resources: building, checking and parsing them. */
module ResourceKeys {
  import opened Wrappers

  // ---------------------------------------------------------------------------------------
  // Percent-encoding, section 2.1 of RFC 3986

  predicate IsAlphanumeric(c: char) { 'a' <= c <= 'z' || 'A' <= c <= 'Z' || '0' <= c <= '9' }

  /** The characters that `encodeURIComponent` leaves alone. */
  predicate IsUnescaped(c: char) {
    IsAlphanumeric(c) || c == '-' || c == '_' || c == '.' || c == '!' || c == '~' || c == '*' || c == '\''
    || c == '(' || c == ')'
  }

  function HexDigit(n: nat): char
    requires n < 16
  {
    if n < 10 then '0' + n as char else 'A' + (n - 10) as char
  }

  function HexValue(c: char): Option<nat> {
    if '0' <= c <= '9' then Some((c - '0') as nat)
    else if 'A' <= c <= 'F' then Some((c - 'A') as nat + 10)
    else if 'a' <= c <= 'f' then Some((c - 'a') as nat + 10)
    else None
  }

  function EscapeByte(b: nat): string
    requires b < 256
  {
    ['%', HexDigit(b / 16), HexDigit(b % 16)]
  }

  /** The bytes of a character in UTF-8. */
  function Utf8(c: char): (bytes: seq<nat>)
    ensures forall i :: 0 <= i < |bytes| ==> bytes[i] < 256
  {
    var n := c as nat;
    if n < 0x80 then [n]
    else if n < 0x800 then [0xC0 + n / 0x40, 0x80 + n % 0x40]
    else if n < 0x10000 then [0xE0 + n / 0x1000, 0x80 + n / 0x40 % 0x40, 0x80 + n % 0x40]
    else [0xF0 + n / 0x40000, 0x80 + n / 0x1000 % 0x40, 0x80 + n / 0x40 % 0x40, 0x80 + n % 0x40]
  }

  function EscapeBytes(bytes: seq<nat>): string
    requires forall i :: 0 <= i < |bytes| ==> bytes[i] < 256
  {
    if bytes == [] then "" else EscapeByte(bytes[0]) + EscapeBytes(bytes[1..])
  }

  function EncodeChar(c: char): string { if IsUnescaped(c) then [c] else EscapeBytes(Utf8(c)) }

  function Encode(s: string): string { if s == "" then "" else EncodeChar(s[0]) + Encode(s[1..]) }

  /** The number of bytes a UTF-8 sequence has by its first one; 0 when it can start none. */
  function SequenceLength(b: nat): nat {
    if b < 0x80 then 1
    else if 0xC0 <= b < 0xE0 then 2
    else if 0xE0 <= b < 0xF0 then 3
    else if 0xF0 <= b < 0xF8 then 4
    else 0
  }

  predicate Continues(b: nat) { 0x80 <= b < 0xC0 }

  /** The character of a UTF-8 sequence of the right length; none when a byte does not belong, a
      shorter sequence would do, or it is not a character. */
  function FromUtf8(bytes: seq<nat>): Option<char>
    requires bytes != [] && |bytes| == SequenceLength(bytes[0])
  {
    if exists i :: 1 <= i < |bytes| && !Continues(bytes[i]) then None
    else
      match |bytes|
      case 1 => Character(bytes[0], 0)
      case 2 => Character((bytes[0] - 0xC0) * 0x40 + (bytes[1] - 0x80), 0x80)
      case 3 => Character((bytes[0] - 0xE0) * 0x1000 + (bytes[1] - 0x80) * 0x40 + (bytes[2] - 0x80), 0x800)
      case _ => Character((bytes[0] - 0xF0) * 0x40000 + (bytes[1] - 0x80) * 0x1000 + (bytes[2] - 0x80) * 0x40
                          + (bytes[3] - 0x80), 0x10000)
  }

  function Character(n: nat, least: nat): Option<char> {
    if least <= n && (n < 0xD800 || 0xE000 <= n < 0x11_0000) then Some(n as char) else None
  }

  /** The byte escaped at the start of the text. */
  function EscapedByte(s: string): Option<nat> {
    if |s| < 3 || s[0] != '%' then None
    else
      match (HexValue(s[1]), HexValue(s[2]))
      case (Some(high), Some(low)) => Some(16 * high + low)
      case _ => None
  }

  /** The `n` bytes escaped at the start of the text. */
  function EscapedBytes(s: string, n: nat): (bytes: Option<seq<nat>>)
    ensures bytes.Some? ==> |bytes.value| == n && 3 * n <= |s|
    ensures bytes.Some? && n > 0 ==> EscapedByte(s) == Some(bytes.value[0])
  {
    if n == 0 then Some([])
    else
      match EscapedByte(s)
      case None => None
      case Some(b) =>
        match EscapedBytes(s[3..], n - 1)
        case Some(rest) => Some([b] + rest)
        case None => None
  }

  /** Decoding; an escape that is incomplete or not of a character's UTF-8 bytes is refused. */
  function Decode(s: string): Option<string>
    decreases |s|
  {
    if s == "" then Some("")
    else if s[0] != '%' then Prefixing(s[0], Decode(s[1..]))
    else
      var first := EscapedByte(s);
      var n := if first.Some? then SequenceLength(first.value) else 0;
      var bytes := EscapedBytes(s, n);
      if n == 0 || bytes.None? then None
      else
        match FromUtf8(bytes.value)
        case Some(c) => Prefixing(c, Decode(s[3 * n..]))
        case None => None
  }

  function Prefixing(c: char, rest: Option<string>): Option<string> {
    if rest.Some? then Some([c] + rest.value) else None
  }

  lemma HexRoundTrip(n: nat)
    requires n < 16
    ensures HexValue(HexDigit(n)) == Some(n) && IsAlphanumeric(HexDigit(n))
  {
  }

  predicate IsAscii(s: string) { forall i :: 0 <= i < |s| ==> s[i] as nat < 0x80 }

  lemma EncodedChar(c: char)
    requires c as nat < 0x80
    ensures EncodeChar(c) == if IsUnescaped(c) then [c] else EscapeByte(c as nat)
  {
    if !IsUnescaped(c) {
      var bytes := [c as nat];
      assert Utf8(c) == bytes && bytes[1..] == [] && EscapeBytes([]) == "";
      assert EscapeBytes(bytes) == EscapeByte(c as nat) + "";
    }
  }

  lemma EscapedByteOf(b: nat, rest: string)
    requires b < 256
    ensures EscapedByte(EscapeByte(b) + rest) == Some(b) && (EscapeByte(b) + rest)[3..] == rest
  {
    HexRoundTrip(b / 16);
    HexRoundTrip(b % 16);
    assert 16 * (b / 16) + b % 16 == b;
  }

  lemma {:induction false} EscapedBytesOf(bytes: seq<nat>, rest: string)
    requires forall i :: 0 <= i < |bytes| ==> bytes[i] < 256
    ensures |EscapeBytes(bytes)| == 3 * |bytes|
    ensures EscapedBytes(EscapeBytes(bytes) + rest, |bytes|) == Some(bytes)
    ensures (EscapeBytes(bytes) + rest)[3 * |bytes|..] == rest
  {
    if bytes != [] {
      var tail := EscapeBytes(bytes[1..]) + rest;
      EscapedBytesOf(bytes[1..], rest);
      EscapedByteOf(bytes[0], tail);
      assert EscapeBytes(bytes) + rest == EscapeByte(bytes[0]) + tail;
      assert [bytes[0]] + bytes[1..] == bytes;
      assert (EscapeByte(bytes[0]) + tail)[3 * |bytes|..] == tail[3 * (|bytes| - 1)..];
    }
  }

  /** Six bits at a time. */
  lemma SixBits(n: nat)
    ensures n == n / 0x40 * 0x40 + n % 0x40 && n / 0x1000 == n / 0x40 / 0x40 && n / 0x40000 == n / 0x1000 / 0x40
  {
  }

  lemma ThreeBytes(c: char)
    requires 0x800 <= c as nat < 0x10000
    ensures FromUtf8([0xE0 + c as nat / 0x1000, 0x80 + c as nat / 0x40 % 0x40, 0x80 + c as nat % 0x40]) == Some(c)
  {
    SixBits(c as nat);
    SixBits(c as nat / 0x40);
  }

  lemma FourBytes(c: char)
    requires 0x10000 <= c as nat
    ensures FromUtf8([0xF0 + c as nat / 0x40000, 0x80 + c as nat / 0x1000 % 0x40, 0x80 + c as nat / 0x40 % 0x40,
                      0x80 + c as nat % 0x40]) == Some(c)
  {
    SixBits(c as nat);
    SixBits(c as nat / 0x40);
    SixBits(c as nat / 0x1000);
  }

  lemma Utf8RoundTrip(c: char)
    ensures Utf8(c) != [] && |Utf8(c)| == SequenceLength(Utf8(c)[0]) && FromUtf8(Utf8(c)) == Some(c)
  {
    var n := c as nat;
    if n < 0x800 {
      SixBits(n);
    } else if n < 0x10000 {
      ThreeBytes(c);
    } else {
      FourBytes(c);
    }
  }

  /** Decoding undoes encoding, on all text. */
  lemma {:induction false} DecodeEncoded(s: string)
    ensures Decode(Encode(s)) == Some(s)
  {
    if s != "" {
      DecodeEncoded(s[1..]);
      var c, rest := s[0], Encode(s[1..]);
      assert [c] + s[1..] == s;
      if IsUnescaped(c) {
        assert ([c] + rest)[1..] == rest;
      } else {
        DecodeEscape(c, rest, s[1..]);
      }
    }
  }

  lemma DecodeEscape(c: char, rest: string, decoded: string)
    requires Decode(rest) == Some(decoded)
    ensures Decode(EscapeBytes(Utf8(c)) + rest) == Some([c] + decoded)
  {
    var bytes := Utf8(c);
    Utf8RoundTrip(c);
    EscapedBytesOf(bytes, rest);
    var s := EscapeBytes(bytes) + rest;
    assert EscapedByte(s) == Some(bytes[0]) && s[0] == '%';
  }

  /** What `encodeURIComponent` leaves: letters, digits and a few marks, else escapes. */
  lemma {:induction false} EncodedIsPlain(s: string)
    ensures forall i :: 0 <= i < |Encode(s)| ==> IsAlphanumeric(Encode(s)[i]) || Encode(s)[i] in "-_.!~*'()%"
  {
    if s != "" {
      EncodedIsPlain(s[1..]);
      EscapesArePlain(Utf8(s[0]));
    }
  }

  lemma {:induction false} EscapesArePlain(bytes: seq<nat>)
    requires forall i :: 0 <= i < |bytes| ==> bytes[i] < 256
    ensures forall i :: 0 <= i < |EscapeBytes(bytes)| ==>
      IsAlphanumeric(EscapeBytes(bytes)[i]) || EscapeBytes(bytes)[i] == '%'
  {
    if bytes != [] {
      EscapesArePlain(bytes[1..]);
      HexRoundTrip(bytes[0] / 16);
      HexRoundTrip(bytes[0] % 16);
    }
  }

  lemma {:induction false} EncodedLength(s: string)
    requires IsAscii(s)
    ensures |Encode(s)| <= 3 * |s|
  {
    if s != "" {
      EncodedLength(s[1..]);
      EncodedChar(s[0]);
    }
  }

  // ---------------------------------------------------------------------------------------
  // Grammar

  /** A word that starts with a letter or digit and goes on in the given class. */
  predicate Word(s: string, rest: char -> bool) {
    s != "" && IsAlphanumeric(s[0]) && forall i :: 1 <= i < |s| ==> rest(s[i])
  }

  const IDENTIFIER_LIMIT := 512
  const KEY_LIMIT := 2 * 1024

  function Common(c: char): bool { IsAlphanumeric(c) || c == '.' || c == '_' || c == '+' || c == '/' || c == '-' }

  function OpenChar(c: char): bool { Common(c) || c == ':' || c == '@' }    // [A-Za-z0-9._:@+/-]
  function EncodedAtChar(c: char): bool { Common(c) || c == '%' || c == '@' } // [A-Za-z0-9._%@+/-]
  function EncodedOnlyChar(c: char): bool { Common(c) || c == '%' }           // [A-Za-z0-9._%+/-]

  lemma CharacterClasses(c: char)
    ensures OpenChar(c) <==> IsAlphanumeric(c) || c in "._:@+/-"
    ensures EncodedAtChar(c) <==> IsAlphanumeric(c) || c in "._%@+/-"
    ensures EncodedOnlyChar(c) <==> IsAlphanumeric(c) || c in "._%+/-"
  {
  }

  predicate IsIdentifier(s: string) { |s| <= IDENTIFIER_LIMIT && Word(s, OpenChar) }

  predicate Prefixed(s: string, prefix: string, rest: string -> bool) { prefix <= s && rest(s[|prefix|..]) }

  /** Two words joined by a colon. */
  predicate Pair(s: string, first: char -> bool, second: char -> bool) {
    exists i :: 0 <= i < |s| && s[i] == ':' && Word(s[..i], first) && Word(s[i + 1..], second)
  }

  predicate Triple(s: string, first: char -> bool, second: char -> bool, third: char -> bool) {
    exists i :: 0 <= i < |s| && s[i] == ':' && Word(s[..i], first) && Pair(s[i + 1..], second, third)
  }

  function OpenWord(s: string): bool { Word(s, OpenChar) }
  function EncodedWord(s: string): bool { Word(s, EncodedAtChar) }
  function OpenPair(s: string): bool { Pair(s, OpenChar, OpenChar) }
  function EncodedPair(s: string): bool { Pair(s, EncodedAtChar, OpenChar) }
  function EncodedTriple(s: string): bool { Triple(s, EncodedOnlyChar, EncodedOnlyChar, OpenChar) }

  predicate IsResourceKey(key: string) {
    0 < |key| <= KEY_LIMIT
    && (key == "agent/providers" || key == "agent/conversations" || IsWordKey(key)
        || Prefixed(key, EXECUTION, EncodedWord) || IsPairKey(key)
        || Prefixed(key, TRANSCRIPT, EncodedPair)
        || Prefixed(key, "agent/strand-transcript:", EncodedTriple))
  }

  const WORD_PREFIXES := ["agent/models:", "agent/conversation:", "agent/conversation-versions:", "agent/runtime:",
                          "agent/queue:", "agent/turn:"]

  predicate IsWordKey(key: string) { exists prefix :: prefix in WORD_PREFIXES && Prefixed(key, prefix, OpenWord) }

  predicate IsPairKey(key: string) {
    Prefixed(key, "agent/transcript:", OpenPair)
    || Prefixed(key, "agent/artifact:", OpenPair)
  }

  const EXECUTION := "agent/execution:"
  const TRANSCRIPT := "agent/execution-transcript:"

  // ---------------------------------------------------------------------------------------
  // Building and parsing

  function ExecutionKey(executionId: string): string { EXECUTION + Encode(executionId) }

  function TranscriptKey(executionId: string, window: string): string {
    TRANSCRIPT + (Encode(executionId) + ":" + window)
  }

  function DecodeSegment(s: string): Option<string> { if s == "" then None else Decode(s) }

  function ParseExecutionKey(key: string): Option<string> {
    if EXECUTION <= key then DecodeSegment(key[|EXECUTION|..]) else None
  }

  function IndexOfColon(s: string): (i: nat)
    ensures i <= |s| && (i < |s| ==> s[i] == ':') && forall k :: 0 <= k < i ==> s[k] != ':'
  {
    if s == "" || s[0] == ':' then 0 else 1 + IndexOfColon(s[1..])
  }

  predicate IsLineTerminator(c: char) { c == '\n' || c == '\r' || c == '\U{2028}' || c == '\U{2029}' }

  /** The id up to the first colon, and a window without line breaks. */
  function ParseTranscriptKey(key: string): Option<(string, string)> {
    if TRANSCRIPT <= key then ParseIdAndWindow(key[|TRANSCRIPT|..]) else None
  }

  function ParseIdAndWindow(s: string): Option<(string, string)> {
    var i := IndexOfColon(s);
    if i == 0 || i + 1 >= |s| || (exists k :: i < k < |s| && IsLineTerminator(s[k])) then None
    else
      match DecodeSegment(s[..i])
      case Some(id) => if id == "" then None else Some((id, s[i + 1..]))
      case None => None
  }

  // ---------------------------------------------------------------------------------------
  // Round trips

  lemma {:induction false} EncodedCharacters(s: string)
    requires forall i :: 0 <= i < |s| ==> OpenChar(s[i])
    ensures forall i :: 0 <= i < |Encode(s)| ==> EncodedOnlyChar(Encode(s)[i])
  {
    if s != "" {
      EncodedCharacters(s[1..]);
      EncodedChar(s[0]);
      HexRoundTrip(s[0] as nat / 16);
      HexRoundTrip(s[0] as nat % 16);
    }
  }

  /** An encoded identifier is a word of the key grammar, has no colon, and decodes back. */
  lemma EncodedIdentifier(id: string)
    requires IsIdentifier(id)
    ensures Word(Encode(id), EncodedAtChar) && forall i :: 0 <= i < |Encode(id)| ==> Encode(id)[i] != ':'
    ensures Decode(Encode(id)) == Some(id) && |Encode(id)| <= 3 * 512
  {
    EncodedCharacters(id);
    DecodeEncoded(id);
    EncodedLength(id);
    assert Encode(id)[0] == id[0];
  }

  /** The key of every identifier is accepted, parses back to it, and is no transcript key. */
  lemma ExecutionKeyRoundTrip(id: string)
    requires IsIdentifier(id)
    ensures IsResourceKey(ExecutionKey(id))
    ensures ParseExecutionKey(ExecutionKey(id)) == Some(id) && ParseTranscriptKey(ExecutionKey(id)) == None
  {
    EncodedIdentifier(id);
    PrefixOf(EXECUTION, Encode(id));
    KindsDiffer(ExecutionKey(id));
  }

  /** Any id at all but the empty one is read back from its key. */
  lemma AnyExecutionKeyParses(id: string)
    requires id != ""
    ensures ParseExecutionKey(ExecutionKey(id)) == Some(id)
  {
    DecodeEncoded(id);
    PrefixOf(EXECUTION, Encode(id));
  }

  /** So is the key of every identifier and window within the length limit. */
  lemma TranscriptKeyRoundTrip(id: string, window: string)
    requires IsIdentifier(id) && Word(window, OpenChar) && |TranscriptKey(id, window)| <= 2_048
    ensures IsResourceKey(TranscriptKey(id, window))
    ensures ParseTranscriptKey(TranscriptKey(id, window)) == Some((id, window))
    ensures ParseExecutionKey(TranscriptKey(id, window)) == None
  {
    EncodedIdentifier(id);
    var key := TranscriptKey(id, window);
    AcceptPair(key, Encode(id), window);
    ParsePair(id, Encode(id), window);
    PrefixOf(TRANSCRIPT, Encode(id) + ":" + window);
    KindsDiffer(key);
  }

  lemma PrefixOf(prefix: string, rest: string)
    ensures prefix <= prefix + rest && (prefix + rest)[|prefix|..] == rest
  {
  }

  /** No key starts both ways. */
  lemma KindsDiffer(key: string)
    ensures !(EXECUTION <= key && TRANSCRIPT <= key)
  {
    assert EXECUTION[15] == ':' && TRANSCRIPT[15] == '-';
  }

  lemma ParsePair(id: string, first: string, second: string)
    requires Word(second, OpenChar) && first != "" && forall i :: 0 <= i < |first| ==> first[i] != ':'
    requires Decode(first) == Some(id) && id != ""
    ensures ParseIdAndWindow(first + ":" + second) == Some((id, second))
  {
    ColonIndex(first, second);
    NoLineBreaks(first, second);
  }

  lemma ColonIndex(first: string, second: string)
    requires forall i :: 0 <= i < |first| ==> first[i] != ':'
    ensures var s := first + ":" + second;
      IndexOfColon(s) == |first| && s[..|first|] == first && s[|first| + 1..] == second
  {
    var s := first + ":" + second;
    assert s[|first|] == ':';
    assert forall k :: 0 <= k < |first| ==> s[k] == first[k];
  }

  lemma AcceptPair(key: string, first: string, second: string)
    requires |key| <= KEY_LIMIT && key == TRANSCRIPT + (first + ":" + second)
    requires Word(first, EncodedAtChar) && Word(second, OpenChar)
    ensures IsResourceKey(key)
  {
    var s := first + ":" + second;
    assert s[|first|] == ':' && s[..|first|] == first && s[|first| + 1..] == second;
    assert Pair(s, EncodedAtChar, OpenChar);
    assert key[|TRANSCRIPT|..] == s;
  }

  lemma NoLineBreaks(first: string, second: string)
    requires Word(second, OpenChar)
    ensures var s := first + ":" + second; forall k :: |first| < k < |s| ==> !IsLineTerminator(s[k])
  {
    var s := first + ":" + second;
    assert forall k :: |first| < k < |s| ==> s[k] == second[k - |first| - 1];
    assert forall k :: 0 <= k < |second| ==> OpenChar(second[k]);
  }

  // ---------------------------------------------------------------------------------------
  // What is refused

  const PREFIXES := WORD_PREFIXES + ["agent/execution:", "agent/transcript:", "agent/artifact:",
                                     "agent/execution-transcript:", "agent/strand-transcript:"]

  predicate IsKeyOf(key: string, prefix: string, rest: string) {
    prefix in PREFIXES && key == prefix + rest && rest != "" && IsAlphanumeric(rest[0])
  }

  lemma StartsWithLetter(s: string)
    requires OpenWord(s) || EncodedWord(s) || OpenPair(s) || EncodedPair(s) || EncodedTriple(s)
    ensures s != "" && IsAlphanumeric(s[0])
  {
  }

  lemma KeyOf(key: string, prefix: string, rest: string -> bool)
    requires prefix in PREFIXES && Prefixed(key, prefix, rest)
    requires rest in {OpenWord, EncodedWord, OpenPair, EncodedPair, EncodedTriple}
    ensures exists prefix', rest' :: IsKeyOf(key, prefix', rest')
  {
    StartsWithLetter(key[|prefix|..]);
    assert key == prefix + key[|prefix|..];
    assert IsKeyOf(key, prefix, key[|prefix|..]);
  }

  /** Apart from the two fixed keys, an accepted key has one of eleven prefixes, followed by a
      letter or digit, and is not too long; everything else is refused. */
  lemma AcceptedKeyHasPrefix(key: string)
    requires IsResourceKey(key)
    ensures |key| <= 2_048
    ensures key == "agent/providers" || key == "agent/conversations"
            || exists prefix, rest :: IsKeyOf(key, prefix, rest)
  {
    if IsWordKey(key) {
      var prefix :| prefix in WORD_PREFIXES && Prefixed(key, prefix, OpenWord);
      KeyOf(key, prefix, OpenWord);
    } else if Prefixed(key, EXECUTION, EncodedWord) {
      KeyOf(key, EXECUTION, EncodedWord);
    } else if Prefixed(key, "agent/transcript:", OpenPair) {
      KeyOf(key, "agent/transcript:", OpenPair);
    } else if Prefixed(key, "agent/artifact:", OpenPair) {
      KeyOf(key, "agent/artifact:", OpenPair);
    } else if Prefixed(key, TRANSCRIPT, EncodedPair) {
      KeyOf(key, TRANSCRIPT, EncodedPair);
    } else if Prefixed(key, "agent/strand-transcript:", EncodedTriple) {
      KeyOf(key, "agent/strand-transcript:", EncodedTriple);
    }
  }

  /** A key that says it is an execution's is accepted exactly when a word of the grammar follows. */
  lemma ExecutionKeysAccepted(rest: string)
    ensures IsResourceKey(EXECUTION + rest) <==> |EXECUTION + rest| <= 2_048 && Word(rest, EncodedAtChar)
  {
    var key := EXECUTION + rest;
    PrefixOf(EXECUTION, rest);
    assert key[6] == 'e' && key[15] == ':' && TRANSCRIPT[15] == '-';
  }

  /** One that says it is an execution transcript's, exactly when an id and a window follow. */
  lemma TranscriptKeysAccepted(rest: string)
    ensures IsResourceKey(TRANSCRIPT + rest) <==>
      |TRANSCRIPT + rest| <= 2_048 && Pair(rest, EncodedAtChar, OpenChar)
  {
    var key := TRANSCRIPT + rest;
    PrefixOf(TRANSCRIPT, rest);
    assert key[6] == 'e' && key[15] == '-' && EXECUTION[15] == ':';
  }

  /** The other kinds: a word, a pair or a triple after the prefix is accepted. */
  lemma WordKeysAccepted(prefix: string, rest: string)
    requires prefix in ["agent/models:", "agent/conversation:", "agent/conversation-versions:", "agent/runtime:",
                        "agent/queue:", "agent/turn:"]
    requires Word(rest, OpenChar) && |prefix + rest| <= 2_048
    ensures IsResourceKey(prefix + rest)
  {
    PrefixOf(prefix, rest);
    assert prefix in WORD_PREFIXES && Prefixed(prefix + rest, prefix, OpenWord);
  }

  lemma PairKeysAccepted(prefix: string, rest: string)
    requires prefix == "agent/transcript:" || prefix == "agent/artifact:"
    requires Pair(rest, OpenChar, OpenChar) && |prefix + rest| <= 2_048
    ensures IsResourceKey(prefix + rest)
  {
    PrefixOf(prefix, rest);
    assert Prefixed(prefix + rest, prefix, OpenPair);
  }

  lemma StrandKeysAccepted(rest: string)
    requires Triple(rest, EncodedOnlyChar, EncodedOnlyChar, OpenChar) && |"agent/strand-transcript:" + rest| <= 2_048
    ensures IsResourceKey("agent/strand-transcript:" + rest)
  {
    PrefixOf("agent/strand-transcript:", rest);
    assert Prefixed("agent/strand-transcript:" + rest, "agent/strand-transcript:", EncodedTriple);
  }
}
