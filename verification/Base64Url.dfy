/** Unpadded base64url text of bytes, section 5 of RFC 4648, and comparison without an early exit. */
module Base64Url {
  import opened Prelude

  /** A byte, or one character of a binary string. */
  type Byte = b: int | 0 <= b < 256

  // ----- base64 as the platform has it, section 4 of RFC 4648

  function Letter(sextet: int): char
    requires 0 <= sextet < 64
  {
    if sextet < 26 then ('A' as int + sextet) as char
    else if sextet < 52 then ('a' as int + (sextet - 26)) as char
    else if sextet < 62 then ('0' as int + (sextet - 52)) as char
    else if sextet == 62 then '+' else '/'
  }

  function Sextet(c: char): (r: int)
    ensures -1 <= r < 64
  {
    if 'A' <= c <= 'Z' then c as int - 'A' as int
    else if 'a' <= c <= 'z' then c as int - 'a' as int + 26
    else if '0' <= c <= '9' then c as int - '0' as int + 52
    else if c == '+' then 62 else if c == '/' then 63 else -1
  }

  function Group(x: Byte, y: Byte, z: Byte): string {
    [Letter(x / 4), Letter(x % 4 * 16 + y / 16), Letter(y % 16 * 4 + z / 64), Letter(z % 64)]
  }

  /** `btoa`. */
  function Btoa(binary: seq<Byte>): string {
    if binary == [] then []
    else if |binary| == 1 then Group(binary[0], 0, 0)[..2] + "=="
    else if |binary| == 2 then Group(binary[0], binary[1], 0)[..3] + "="
    else Group(binary[0], binary[1], binary[2]) + Btoa(binary[3..])
  }

  predicate Whitespace(c: char) { c == ' ' || c == '\t' || c == '\n' || c == '\r' || c as int == 12 }

  function Ungroup(a: int, b: int, c: int, d: int): seq<Byte>
    requires 0 <= a < 64 && 0 <= b < 64 && 0 <= c < 64 && 0 <= d < 64
  {
    [a * 4 + b / 16, b % 16 * 16 + c / 4, c % 4 * 64 + d]
  }

  predicate Alphabetic(text: string) { forall i :: 0 <= i < |text| ==> Sextet(text[i]) >= 0 }

  /** A length that some number of whole bytes has: not one over a multiple of four. */
  predicate Whole(length: nat) { if length < 4 then length != 1 else Whole(length - 4) }

  /** The bytes of an unpadded text; bits past the last whole byte are dropped. */
  function Unpacked(text: string): seq<Byte>
    requires Alphabetic(text) && Whole(|text|)
  {
    if text == [] then []
    else if |text| == 2 then Ungroup(Sextet(text[0]), Sextet(text[1]), 0, 0)[..1]
    else if |text| == 3 then Ungroup(Sextet(text[0]), Sextet(text[1]), Sextet(text[2]), 0)[..2]
    else Ungroup(Sextet(text[0]), Sextet(text[1]), Sextet(text[2]), Sextet(text[3])) + Unpacked(text[4..])
  }

  /** At most two padding characters come off a text of whole groups. */
  function Unpadded(text: string): string {
    if |text| % 4 == 0 && |text| > 0 && text[|text| - 1] == '=' then
      if text[|text| - 2] == '=' then text[..|text| - 2] else text[..|text| - 1]
    else text
  }

  function NotBlank(): char -> bool { (c: char) => !Whitespace(c) }

  /** `atob`: nothing where it throws. */
  function Atob(text: string): Option<seq<Byte>> {
    var data := Unpadded(Filter(text, NotBlank()));
    if !Whole(|data|) || !Alphabetic(data) then None else Some(Unpacked(data))
  }

  // ----- the relay's pair

  function UrlLetter(c: char): char { if c == '+' then '-' else if c == '/' then '_' else c }

  function PlainLetter(c: char): char { if c == '-' then '+' else if c == '_' then '/' else c }

  function Replaced(text: string, f: char -> char): (r: string)
    ensures |r| == |text| && forall i :: 0 <= i < |text| ==> r[i] == f(text[i])
  {
    if text == [] then [] else [f(text[0])] + Replaced(text[1..], f)
  }

  /** Every trailing padding character taken off. */
  function Stripped(text: string): string {
    if text != [] && text[|text| - 1] == '=' then Stripped(text[..|text| - 1]) else text
  }

  function Repeat(c: char, n: nat): string { if n == 0 then [] else [c] + Repeat(c, n - 1) }

  /** The padding characters a text of that length takes. */
  function Padding(length: nat): nat { (4 - length % 4) % 4 }

  function Encoded(bytes: seq<Byte>): string { Stripped(Replaced(Btoa(bytes), UrlLetter)) }

  function Decoded(value: string): Option<seq<Byte>> {
    var normalized := Replaced(value, PlainLetter);
    Atob(normalized + Repeat('=', Padding(|normalized|)))
  }

  method BytesToBase64Url(bytes: array<Byte>) returns (text: string)
    ensures text == Encoded(bytes[..])
  {
    var binary: seq<Byte> := [];
    for i := 0 to bytes.Length
      invariant binary == bytes[..i]
    {
      binary := binary + [bytes[i]];
    }
    assert bytes[..bytes.Length] == bytes[..];
    text := Stripped(Replaced(Btoa(binary), UrlLetter));
  }

  /** Fails where the platform's decoder throws. */
  method DecodeBase64Url(value: string) returns (ok: bool, bytes: array<Byte>)
    ensures ok == Decoded(value).Some?
    ensures ok ==> fresh(bytes) && bytes[..] == Decoded(value).value
  {
    var normalized := Replaced(value, PlainLetter);
    var padding := Repeat('=', Padding(|normalized|));
    var binary := Atob(normalized + padding);
    if binary.None? {
      bytes := new Byte[0];
      return false, bytes;
    }
    bytes := new Byte[|binary.value|];
    for index := 0 to |binary.value|
      invariant bytes[..index] == binary.value[..index]
    {
      bytes[index] := binary.value[index];
    }
    assert bytes[..] == bytes[..|binary.value|] == binary.value;
    ok := true;
  }

  // ----- round trip

  predicate UrlAlphabet(text: string) { Alphabetic(Replaced(text, PlainLetter)) && '+' !in text && '/' !in text }

  lemma {:induction false} LetterReads(sextet: int)
    requires 0 <= sextet < 64
    ensures Sextet(Letter(sextet)) == sextet && Letter(sextet) != '='
    ensures PlainLetter(UrlLetter(Letter(sextet))) == Letter(sextet)
    ensures UrlLetter(Letter(sextet)) !in ['+', '/', '=']
  {
  }

  lemma {:induction false} GroupReads(x: Byte, y: Byte, z: Byte)
    ensures Ungroup(x / 4, x % 4 * 16 + y / 16, y % 16 * 4 + z / 64, z % 64) == [x, y, z]
  {
    assert (x % 4 * 16 + y / 16) / 16 == x % 4 && (x % 4 * 16 + y / 16) % 16 == y / 16;
    assert (y % 16 * 4 + z / 64) / 4 == y % 16 && (y % 16 * 4 + z / 64) % 4 == z / 64;
  }

  /** The data characters of the platform's text, without its padding. */
  function Letters(binary: seq<Byte>): string {
    if binary == [] then []
    else if |binary| == 1 then Group(binary[0], 0, 0)[..2]
    else if |binary| == 2 then Group(binary[0], binary[1], 0)[..3]
    else Group(binary[0], binary[1], binary[2]) + Letters(binary[3..])
  }

  lemma {:induction false} GroupLetters(x: Byte, y: Byte, z: Byte)
    ensures forall i :: 0 <= i < 4 ==> LetterLike(Group(x, y, z)[i])
    ensures Sextet(Group(x, y, z)[0]) == x / 4 && Sextet(Group(x, y, z)[1]) == x % 4 * 16 + y / 16
    ensures Sextet(Group(x, y, z)[2]) == y % 16 * 4 + z / 64 && Sextet(Group(x, y, z)[3]) == z % 64
  {
    LetterReads(x / 4);
    LetterReads(x % 4 * 16 + y / 16);
    LetterReads(y % 16 * 4 + z / 64);
    LetterReads(z % 64);
  }

  predicate LetterLike(c: char) {
    Sextet(c) >= 0 && c != '=' && PlainLetter(UrlLetter(c)) == c && UrlLetter(c) !in ['+', '/', '=']
  }

  lemma {:induction false} LettersLength(binary: seq<Byte>)
    ensures |Letters(binary)| == (4 * |binary| + 2) / 3
    ensures Whole(|Letters(binary)|)
  {
    if |binary| > 2 {
      LettersLength(binary[3..]);
    }
  }

  lemma {:induction false} LettersLike(binary: seq<Byte>)
    ensures forall i :: 0 <= i < |Letters(binary)| ==> LetterLike(Letters(binary)[i])
  {
    if |binary| == 1 {
      GroupLetters(binary[0], 0, 0);
    } else if |binary| == 2 {
      GroupLetters(binary[0], binary[1], 0);
    } else if |binary| > 2 {
      GroupLetters(binary[0], binary[1], binary[2]);
      LettersLike(binary[3..]);
    }
  }

  lemma {:induction false} PaddingPeriod(length: nat)
    ensures Padding(length + 4) == Padding(length)
  {
  }

  lemma {:induction false} BtoaPads(binary: seq<Byte>)
    ensures Btoa(binary) == Letters(binary) + Repeat('=', Padding(|Letters(binary)|))
  {
    if |binary| == 1 {
      assert Repeat('=', 2) == "==";
    } else if |binary| == 2 {
      assert Repeat('=', 1) == "=";
    } else if |binary| > 2 {
      BtoaPads(binary[3..]);
      PaddingPeriod(|Letters(binary[3..])|);
      var group, rest := Group(binary[0], binary[1], binary[2]), Letters(binary[3..]);
      var pads := Repeat('=', Padding(|rest|));
      assert group + (rest + pads) == (group + rest) + pads;
    }
  }

  lemma {:induction false} LettersShape(binary: seq<Byte>)
    ensures forall i :: 0 <= i < |Letters(binary)| ==> LetterLike(Letters(binary)[i])
    ensures |Letters(binary)| == (4 * |binary| + 2) / 3
    ensures Btoa(binary) == Letters(binary) + Repeat('=', Padding(|Letters(binary)|))
  {
    LettersLike(binary);
    LettersLength(binary);
    BtoaPads(binary);
  }

  lemma {:induction false} LettersAlphabetic(binary: seq<Byte>)
    ensures Alphabetic(Letters(binary)) && Whole(|Letters(binary)|)
  {
    LettersShape(binary);
    LettersLength(binary);
    forall i | 0 <= i < |Letters(binary)|
      ensures Sextet(Letters(binary)[i]) >= 0
    {
      assert LetterLike(Letters(binary)[i]);
    }
  }

  lemma {:induction false} LettersUnpack(binary: seq<Byte>)
    ensures Alphabetic(Letters(binary)) && Whole(|Letters(binary)|)
    ensures Unpacked(Letters(binary)) == binary
    decreases |binary|, 1
  {
    LettersAlphabetic(binary);
    if |binary| == 1 {
      GroupLetters(binary[0], 0, 0);
      GroupReads(binary[0], 0, 0);
    } else if |binary| == 2 {
      GroupLetters(binary[0], binary[1], 0);
      GroupReads(binary[0], binary[1], 0);
    } else if |binary| > 2 {
      UnpackGroup(binary);
    }
  }

  lemma {:induction false} UnpackGroup(binary: seq<Byte>)
    requires |binary| > 2
    ensures Alphabetic(Letters(binary)) && Whole(|Letters(binary)|)
    ensures Unpacked(Letters(binary)) == binary
    decreases |binary|, 0
  {
    LettersAlphabetic(binary);
    LettersUnpack(binary[3..]);
    GroupLetters(binary[0], binary[1], binary[2]);
    GroupReads(binary[0], binary[1], binary[2]);
    var text := Letters(binary);
    assert text[..4] == Group(binary[0], binary[1], binary[2]) && text[4..] == Letters(binary[3..]);
    assert binary == [binary[0], binary[1], binary[2]] + binary[3..];
  }

  lemma {:induction false} StrippedPadding(text: string, n: nat)
    requires text == [] || text[|text| - 1] != '='
    ensures Stripped(text + Repeat('=', n)) == text
  {
    if n == 0 {
      assert text + Repeat('=', n) == text;
    } else {
      StrippedPadding(text, n - 1);
      RepeatLast('=', n);
      assert (text + Repeat('=', n))[..|text| + n - 1] == text + Repeat('=', n - 1);
    }
  }

  lemma {:induction false} RepeatLast(c: char, n: nat)
    ensures |Repeat(c, n)| == n
    ensures n > 0 ==> Repeat(c, n) == Repeat(c, n - 1) + [c]
    ensures forall i :: 0 <= i < n ==> Repeat(c, n)[i] == c
  {
    if n > 0 {
      RepeatLast(c, n - 1);
    }
  }

  /** The text is the data characters alone, in the URL alphabet. */
  lemma {:induction false} EncodedIsLetters(bytes: seq<Byte>)
    ensures Encoded(bytes) == Replaced(Letters(bytes), UrlLetter)
    ensures Replaced(Encoded(bytes), PlainLetter) == Letters(bytes)
  {
    LettersShape(bytes);
    var letters := Letters(bytes);
    var pad := Padding(|letters|);
    var url := Replaced(letters, UrlLetter);
    RepeatLast('=', pad);
    assert Replaced(Btoa(bytes), UrlLetter) == url + Repeat('=', pad);
    if letters != [] {
      assert LetterLike(letters[|letters| - 1]);
    }
    StrippedPadding(url, pad);
    assert forall i :: 0 <= i < |letters| ==> LetterLike(letters[i]) && PlainLetter(url[i]) == letters[i];
    assert Replaced(url, PlainLetter) == letters;
  }

  lemma {:induction false} FilterClean(text: string)
    requires forall i :: 0 <= i < |text| ==> Sextet(text[i]) >= 0 || text[i] == '='
    ensures Filter(text, NotBlank()) == text
  {
    forall c | c in text
      ensures !Whitespace(c)
    {
      var i :| 0 <= i < |text| && text[i] == c;
    }
    FilterAll(text, NotBlank());
  }

  lemma {:induction false} WholeLengths(length: nat)
    ensures Whole(length) <==> length % 4 != 1
  {
    if length >= 4 {
      WholeLengths(length - 4);
    }
  }

  lemma {:induction false} PaddingFills(length: nat)
    ensures (length + Padding(length)) % 4 == 0 && Padding(length) <= 3
    ensures Padding(length) == 3 <==> length % 4 == 1
  {
  }

  lemma {:induction false} LastIsData(letters: string)
    requires Alphabetic(letters) && letters != []
    ensures letters[|letters| - 1] != '='
  {
    assert Sextet(letters[|letters| - 1]) >= 0;
  }

  lemma {:induction false} PaddedIsClean(letters: string, pad: nat)
    requires Alphabetic(letters)
    ensures Filter(letters + Repeat('=', pad), NotBlank()) == letters + Repeat('=', pad)
  {
    var text := letters + Repeat('=', pad);
    RepeatLast('=', pad);
    forall i | 0 <= i < |text|
      ensures Sextet(text[i]) >= 0 || text[i] == '='
    {
      assert i >= |letters| ==> text[i] == Repeat('=', pad)[i - |letters|];
    }
    FilterClean(text);
  }

  lemma {:induction false} UnpaddedLetters(letters: string, pad: nat)
    requires Alphabetic(letters) && pad == Padding(|letters|) && pad < 3
    ensures Unpadded(letters + Repeat('=', pad)) == letters
  {
    var text := letters + Repeat('=', pad);
    if letters != [] {
      LastIsData(letters);
    }
    PaddingFills(|letters|);
    RepeatLast('=', pad);
    assert text[..|letters|] == letters;
    if pad == 1 {
      assert text[|letters|] == '=' && text[|letters| - 1] == letters[|letters| - 1];
    } else if pad == 2 {
      assert text[|letters|] == '=' && text[|letters| + 1] == '=';
    }
  }

  /** Which unpadded texts of the URL alphabet decode, and to what. */
  lemma {:induction false} CleanTextDecodes(value: string)
    requires UrlAlphabet(value)
    ensures Decoded(value) ==
            if !Whole(|value|) then None else Some(Unpacked(Replaced(value, PlainLetter)))
  {
    var normalized := Replaced(value, PlainLetter);
    WholeLengths(|value|);
    PaddingFills(|value|);
    if !Whole(|value|) {
      ThreePads(normalized);
    } else {
      PaddedIsClean(normalized, Padding(|normalized|));
      UnpaddedLetters(normalized, Padding(|normalized|));
    }
  }

  lemma {:induction false} ThreePads(letters: string)
    requires Alphabetic(letters) && !Whole(|letters|)
    ensures Atob(letters + Repeat('=', 3)) == None
  {
    var text := letters + Repeat('=', 3);
    PaddedIsClean(letters, 3);
    WholeLengths(|letters|);
    assert Repeat('=', 3) == "===";
    assert |text| % 4 == 0 && text[|text| - 1] == '=' && text[|text| - 2] == '=';
    assert Unpadded(text) == text[..|text| - 2];
    assert text[|letters|] == '=' && Sextet('=') == -1;
  }

  /** The decoder undoes the encoder, for all bytes; the text is unpadded and safe in a URL. */
  lemma {:induction false} DecodeUndoesEncode(bytes: seq<Byte>)
    ensures Decoded(Encoded(bytes)) == Some(bytes)
    ensures UrlAlphabet(Encoded(bytes)) && '=' !in Encoded(bytes)
    ensures |Encoded(bytes)| == (4 * |bytes| + 2) / 3
  {
    EncodedIsLetters(bytes);
    LettersShape(bytes);
    LettersUnpack(bytes);
    var letters := Letters(bytes);
    forall c | c in Encoded(bytes)
      ensures c !in ['+', '/', '=']
    {
      var i :| 0 <= i < |letters| && Encoded(bytes)[i] == c;
      assert LetterLike(letters[i]);
    }
    CleanTextDecodes(Encoded(bytes));
  }

  /** The last group of the text leaves no bit over. */
  predicate NoBitsOver(text: string)
    requires Alphabetic(text) && Whole(|text|)
  {
    if text == [] then true
    else if |text| == 2 then Sextet(text[1]) % 16 == 0
    else if |text| == 3 then Sextet(text[2]) % 4 == 0
    else NoBitsOver(text[4..])
  }

  lemma {:induction false} SextetReads(c: char)
    requires Sextet(c) >= 0
    ensures Letter(Sextet(c)) == c
  {
  }

  lemma {:induction false} UngroupReads(a: int, b: int, c: int, d: int)
    requires 0 <= a < 64 && 0 <= b < 64 && 0 <= c < 64 && 0 <= d < 64
    ensures var g := Ungroup(a, b, c, d);
            && g[0] / 4 == a && g[0] % 4 * 16 + g[1] / 16 == b && g[1] % 16 * 4 + g[2] / 64 == c && g[2] % 64 == d
  {
    assert (a * 4 + b / 16) / 4 == a && (a * 4 + b / 16) % 4 == b / 16;
    assert (b % 16 * 16 + c / 4) / 16 == b % 16 && (b % 16 * 16 + c / 4) % 16 == c / 4;
    assert (c % 4 * 64 + d) / 64 == c % 4 && (c % 4 * 64 + d) % 64 == d;
  }

  lemma {:induction false} LettersOfUnpacked(text: string)
    requires Alphabetic(text) && Whole(|text|)
    ensures Letters(Unpacked(text)) == text <==> NoBitsOver(text)
  {
    if |text| == 2 {
      SextetReads(text[0]);
      SextetReads(text[1]);
      TwoLetters(text);
    } else if |text| == 3 {
      ThreeLetters(text);
    } else if |text| > 3 {
      FourLetters(text);
      LettersOfUnpacked(text[4..]);
      GroupMatches(text);
    }
  }

  lemma {:induction false} GroupMatches(text: string)
    requires Alphabetic(text) && |text| > 3 && Whole(|text|) && Alphabetic(text[4..])
    requires |Unpacked(text)| >= 3 && Group(Unpacked(text)[0], Unpacked(text)[1], Unpacked(text)[2]) == text[..4]
    ensures Letters(Unpacked(text)) == text <==> Letters(Unpacked(text[4..])) == text[4..]
    ensures NoBitsOver(text) == NoBitsOver(text[4..])
  {
    var rest := Letters(Unpacked(text[4..]));
    assert Unpacked(text)[3..] == Unpacked(text[4..]);
    assert Letters(Unpacked(text)) == text[..4] + rest;
    assert text == text[..4] + text[4..];
    assert (text[..4] + rest)[4..] == rest;
  }

  lemma {:induction false} TwoLetters(text: string)
    requires Alphabetic(text) && |text| == 2
    ensures Letters(Unpacked(text)) == text <==> Sextet(text[1]) % 16 == 0
  {
    var a, b := Sextet(text[0]), Sextet(text[1]);
    SextetReads(text[0]);
    SextetReads(text[1]);
    UngroupReads(a, b, 0, 0);
    var x := Unpacked(text)[0];
    assert Unpacked(text) == [x] && x == a * 4 + b / 16;
    assert Letters([x]) == [Letter(x / 4), Letter(x % 4 * 16)];
    assert x % 4 * 16 == b - b % 16;
    LetterReads(x % 4 * 16);
  }

  lemma {:induction false} ThreeLetters(text: string)
    requires Alphabetic(text) && |text| == 3
    ensures Letters(Unpacked(text)) == text <==> Sextet(text[2]) % 4 == 0
  {
    var a, b, c := Sextet(text[0]), Sextet(text[1]), Sextet(text[2]);
    SextetReads(text[0]);
    SextetReads(text[1]);
    SextetReads(text[2]);
    UngroupReads(a, b, c, 0);
    var x, y := Unpacked(text)[0], Unpacked(text)[1];
    assert Unpacked(text) == [x, y];
    assert Letters([x, y]) == [Letter(x / 4), Letter(x % 4 * 16 + y / 16), Letter(y % 16 * 4)];
    assert y % 16 * 4 == c - c % 4;
    LetterReads(y % 16 * 4);
  }

  lemma {:induction false} FourLetters(text: string)
    requires Alphabetic(text) && |text| > 3 && Whole(|text|)
    ensures Alphabetic(text[4..]) && |Unpacked(text)| >= 3
    ensures var g := Unpacked(text);
            Group(g[0], g[1], g[2]) == text[..4]
  {
    var a, b, c, d := Sextet(text[0]), Sextet(text[1]), Sextet(text[2]), Sextet(text[3]);
    SextetReads(text[0]);
    SextetReads(text[1]);
    SextetReads(text[2]);
    SextetReads(text[3]);
    UngroupReads(a, b, c, d);
  }

  /** The encoder undoes the decoder exactly on the texts that leave no bit over. */
  lemma {:induction false} EncodeUndoesDecode(value: string)
    requires UrlAlphabet(value) && Whole(|value|)
    ensures Decoded(value).Some?
    ensures Encoded(Decoded(value).value) == value <==> NoBitsOver(Replaced(value, PlainLetter))
  {
    var plain := Replaced(value, PlainLetter);
    CleanTextDecodes(value);
    LettersOfUnpacked(plain);
    EncodedIsLetters(Unpacked(plain));
    PlainReads(value);
    var back := Encoded(Unpacked(plain));
    if Letters(Unpacked(plain)) == plain {
      assert back == Replaced(plain, UrlLetter) == value;
    }
  }

  lemma {:induction false} PlainReads(value: string)
    requires UrlAlphabet(value)
    ensures Replaced(Replaced(value, PlainLetter), UrlLetter) == value
  {
    forall i | 0 <= i < |value|
      ensures UrlLetter(PlainLetter(value[i])) == value[i]
    {
      assert value[i] in value;
    }
  }

  // ----- comparison

  function BitXor(a: nat, b: nat): nat {
    if a == 0 && b == 0 then 0 else (if a % 2 == b % 2 then 0 else 1) + 2 * BitXor(a / 2, b / 2)
  }

  function BitOr(a: nat, b: nat): nat {
    if a == 0 && b == 0 then 0 else (if a % 2 == 0 && b % 2 == 0 then 0 else 1) + 2 * BitOr(a / 2, b / 2)
  }

  lemma {:induction false} XorZero(a: nat, b: nat)
    ensures BitXor(a, b) == 0 <==> a == b
  {
    if a != 0 || b != 0 {
      XorZero(a / 2, b / 2);
    }
  }

  lemma {:induction false} OrZero(a: nat, b: nat)
    ensures BitOr(a, b) == 0 <==> a == 0 && b == 0
  {
    if a != 0 || b != 0 {
      OrZero(a / 2, b / 2);
    }
  }

  function ByteAt(s: seq<Byte>, i: nat): Byte { if i < |s| then s[i] else 0 }

  /** Every byte is looked at, and the answer is equality. */
  method ConstantTimeEqual(left: seq<Byte>, right: seq<Byte>) returns (equal: bool)
    ensures equal <==> left == right
  {
    var difference := BitXor(|left|, |right|);
    XorZero(|left|, |right|);
    var length := Max(|left|, |right|);
    for index := 0 to length
      invariant difference == 0 <==>
                |left| == |right| && forall i :: 0 <= i < index ==> ByteAt(left, i) == ByteAt(right, i)
    {
      var bits := BitXor(ByteAt(left, index), ByteAt(right, index));
      XorZero(ByteAt(left, index), ByteAt(right, index));
      OrZero(difference, bits);
      difference := BitOr(difference, bits);
    }
    if difference == 0 {
      forall i | 0 <= i < |left|
        ensures left[i] == right[i]
      {
        assert ByteAt(left, i) == ByteAt(right, i);
      }
    }
    equal := difference == 0;
  }
}
