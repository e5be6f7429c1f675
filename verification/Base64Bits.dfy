/**
 * The base64url text as numbers: each four letters write in base 64 what three bytes write in base
 * 256. And what the decoder makes of blanks.
 */
module Base64Bits {
  import opened Prelude
  import opened Base64Url

  const UPPER := "ABCDEFGHIJKLMNOPQRSTUVWXYZ"
  const LOWER := "abcdefghijklmnopqrstuvwxyz"
  const DIGITS := "0123456789"

  /** The URL alphabet of RFC 4648, section 5. */
  const URL_ALPHABET := UPPER + LOWER + DIGITS + "-_"

  lemma {:induction false} UpperAt(i: int)
    requires 0 <= i < 26
    ensures UPPER[i] as int == 'A' as int + i
  {
    assert i <= 0 || i == 1 || i == 2 || i == 3 || i == 4 || i == 5 || i == 6 || i >= 7;
  }

  lemma {:induction false} LowerAt(i: int)
    requires 0 <= i < 26
    ensures LOWER[i] as int == 'a' as int + i
  {
    assert i <= 0 || i == 1 || i == 2 || i == 3 || i == 4 || i == 5 || i == 6 || i >= 7;
  }

  lemma {:induction false} DigitAt(i: int)
    requires 0 <= i < 10
    ensures DIGITS[i] as int == '0' as int + i
  {
  }

  lemma {:induction false} LettersOfAlphabet(sextet: int)
    requires 0 <= sextet < 64
    ensures |URL_ALPHABET| == 64 && UrlLetter(Letter(sextet)) == URL_ALPHABET[sextet]
  {
    if sextet < 26 {
      UpperAt(sextet);
    } else if sextet < 52 {
      LowerAt(sextet - 26);
    } else if sextet < 62 {
      DigitAt(sextet - 52);
    }
  }

  /** The element at `i`, or zero past the end. */
  function At(s: seq<int>, i: nat): int {
    if i < |s| then s[i] else 0
  }

  function Sextets(letters: string): (r: seq<int>)
    requires Alphabetic(letters)
    ensures |r| == |letters| && forall i :: 0 <= i < |r| ==> r[i] == Sextet(letters[i]) && 0 <= r[i] < 64
  {
    seq(|letters|, i requires 0 <= i < |letters| => Sextet(letters[i]))
  }

  /** Group `q` of both: four digits of base 64, and three of base 256. */
  ghost predicate SameNumber(sextets: seq<int>, bytes: seq<int>, q: nat) {
    262_144 * At(sextets, 4 * q) + 4_096 * At(sextets, 4 * q + 1) + 64 * At(sextets, 4 * q + 2) + At(sextets, 4 * q + 3)
    == 65_536 * At(bytes, 3 * q) + 256 * At(bytes, 3 * q + 1) + At(bytes, 3 * q + 2)
  }

  lemma {:induction false} GroupNumber(x: Byte, y: Byte, z: Byte)
    ensures 262_144 * (x / 4) + 4_096 * (x % 4 * 16 + y / 16) + 64 * (y % 16 * 4 + z / 64) + z % 64
         == 65_536 * x + 256 * y + z
  {
    assert x == x / 4 * 4 + x % 4 && y == y / 16 * 16 + y % 16 && z == z / 64 * 64 + z % 64;
  }

  lemma {:induction false} FirstGroup(binary: seq<Byte>)
    requires binary != [] && Alphabetic(Letters(binary))
    ensures SameNumber(Sextets(Letters(binary)), binary, 0)
  {
    var y, z := if |binary| > 1 then binary[1] else 0, if |binary| > 2 then binary[2] else 0;
    GroupNumber(binary[0], y, z);
    GroupLetters(binary[0], y, z);
    assert |binary| <= 2 ==> z / 64 == 0 && z % 64 == 0;
    assert |binary| == 1 ==> y % 16 * 4 == 0;
  }

  lemma {:induction false} AtShift(s: seq<int>, n: nat, i: nat)
    requires n <= |s|
    ensures At(s, i + n) == At(s[n..], i)
  {
  }

  lemma {:induction false} LaterGroup(s: seq<int>, b: seq<int>, q: nat)
    requires q > 0 && |s| >= 4 && |b| >= 3 && SameNumber(s[4..], b[3..], q - 1)
    ensures SameNumber(s, b, q)
  {
    var i, j: nat := 4 * (q - 1), 3 * (q - 1);
    AtShift(s, 4, i);
    AtShift(s, 4, i + 1);
    AtShift(s, 4, i + 2);
    AtShift(s, 4, i + 3);
    AtShift(b, 3, j);
    AtShift(b, 3, j + 1);
    AtShift(b, 3, j + 2);
  }

  lemma {:induction false} LaterLetters(binary: seq<Byte>)
    requires |binary| > 3 && Alphabetic(Letters(binary))
    ensures |Letters(binary)| >= 4 && Letters(binary)[4..] == Letters(binary[3..])
    ensures Alphabetic(Letters(binary[3..]))
    ensures Sextets(Letters(binary))[4..] == Sextets(Letters(binary[3..]))
  {
    var letters, later := Letters(binary), Letters(binary[3..]);
    assert letters[4..] == later;
    assert forall i :: 0 <= i < |later| ==> later[i] == letters[i + 4];
  }

  /** Group by group, from the front. */
  ghost predicate GroupsAgree(s: seq<int>, b: seq<int>) {
    b != [] ==>
      && SameNumber(s, b, 0)
      && (|b| > 3 ==> |s| >= 4 && GroupsAgree(s[4..], b[3..]))
  }

  lemma {:induction false} LettersAgree(binary: seq<Byte>)
    requires Alphabetic(Letters(binary))
    ensures GroupsAgree(Sextets(Letters(binary)), binary)
  {
    if |binary| > 3 {
      FirstGroup(binary);
      LaterLetters(binary);
      LettersAgree(binary[3..]);
    } else if binary != [] {
      FirstGroup(binary);
    }
  }

  lemma {:induction false} EveryGroup(s: seq<int>, b: seq<int>, q: nat)
    requires 3 * q < |b| && GroupsAgree(s, b)
    ensures SameNumber(s, b, q)
  {
    if q > 0 {
      EveryGroup(s[4..], b[3..], q - 1);
      LaterGroup(s, b, q);
    }
  }

  /**
   * Every letter is a digit of the URL alphabet, and each four of them, with zeros for the missing
   * ones, are the number of the three bytes they stand for.
   */
  lemma {:induction false} TextIsNumber(bytes: seq<Byte>) returns (sextets: seq<int>)
    ensures |sextets| == |Encoded(bytes)| == (4 * |bytes| + 2) / 3
    ensures |URL_ALPHABET| == 64
    ensures forall i :: 0 <= i < |sextets| ==> 0 <= sextets[i] < 64 && Encoded(bytes)[i] == URL_ALPHABET[sextets[i]]
    ensures forall q: nat :: 3 * q < |bytes| ==> SameNumber(sextets, bytes, q)
  {
    var letters := Letters(bytes);
    EncodedIsLetters(bytes);
    LettersShape(bytes);
    LettersUnpack(bytes);
    sextets := Sextets(letters);
    LettersAgree(bytes);
    forall i | 0 <= i < |sextets|
      ensures |URL_ALPHABET| == 64 && Encoded(bytes)[i] == URL_ALPHABET[sextets[i]]
    {
      SextetReads(letters[i]);
      LettersOfAlphabet(sextets[i]);
    }
    forall q: nat | 3 * q < |bytes|
      ensures SameNumber(sextets, bytes, q)
    {
      EveryGroup(sextets, bytes, q);
    }
  }

  // ----- texts with blanks

  lemma {:induction false} UnpaddedOf(data: string, pad: nat)
    requires '=' !in data && pad <= 3
    ensures Unpadded(data + Repeat('=', pad)) ==
            if (|data| + pad) % 4 != 0 then data + Repeat('=', pad)
            else if pad <= 2 then data else data + Repeat('=', 1)
  {
    var text := data + Repeat('=', pad);
    RepeatLast('=', pad);
    assert text[..|data|] == data;
    assert forall i :: |data| <= i < |text| ==> text[i] == Repeat('=', pad)[i - |data|];
    assert forall i :: 0 <= i < |data| ==> text[i] == data[i] && data[i] in data;
    if pad == 3 {
      assert Repeat('=', 3)[..1] == Repeat('=', 1);
      assert text[..|data| + 1] == data + Repeat('=', 1);
    }
  }

  lemma {:induction false} PaddingIsNoData(data: string, n: nat)
    requires n > 0
    ensures !Alphabetic(data + Repeat('=', n))
  {
    RepeatLast('=', n);
    assert (data + Repeat('=', n))[|data|] == '=';
  }

  lemma {:induction false} BlanksGo(text: string, pad: nat)
    ensures Filter(text + Repeat('=', pad), NotBlank()) == Filter(text, NotBlank()) + Repeat('=', pad)
  {
    FilterAppend(text, Repeat('=', pad), NotBlank());
    RepeatLast('=', pad);
    FilterClean(Repeat('=', pad));
  }

  lemma {:induction false} NoPaddingReplaced(value: string)
    requires '=' !in value
    ensures '=' !in Replaced(value, PlainLetter)
  {
    var normalized := Replaced(value, PlainLetter);
    forall i | 0 <= i < |normalized|
      ensures normalized[i] != '='
    {
      assert value[i] in value && normalized[i] == PlainLetter(value[i]);
    }
  }

  /** The bytes of unpadded data, or nothing when it is none. */
  function DataOf(data: string): Option<seq<Byte>> {
    if !Whole(|data|) || !Alphabetic(data) then None else Some(Unpacked(data))
  }

  lemma {:induction false} PaddedDataOf(data: string, pad: nat)
    requires '=' !in data && pad <= 3
    ensures DataOf(Unpadded(data + Repeat('=', pad))) ==
            if pad == 0 || (pad <= 2 && (|data| + pad) % 4 == 0) then DataOf(data) else None
  {
    UnpaddedOf(data, pad);
    if pad == 0 {
      assert data + Repeat('=', 0) == data;
    } else {
      PaddingIsNoData(data, pad);
      PaddingIsNoData(data, 1);
    }
  }

  lemma {:induction false} PaddingFitsData(length: nat, data: nat)
    ensures var pad := Padding(length);
      && pad <= 3
      && (pad == 0 <==> length % 4 == 0)
      && (pad <= 2 && (data + pad) % 4 == 0 <==> data % 4 == length % 4 && length % 4 != 1)
  {
  }

  lemma {:induction false} PaddingDecides(data: string, length: nat)
    requires '=' !in data
    ensures DataOf(Unpadded(data + Repeat('=', Padding(length)))) ==
            if |data| % 4 == length % 4 || length % 4 == 0 then DataOf(data) else None
  {
    PaddingFitsData(length, |data|);
    PaddedDataOf(data, Padding(length));
    WholeLengths(|data|);
  }

  lemma {:induction false} AtobOfPadded(text: string, data: string)
    requires data == Filter(text, NotBlank()) && '=' !in data
    ensures Atob(text + Repeat('=', Padding(|text|))) ==
            if |data| % 4 == |text| % 4 || |text| % 4 == 0 then DataOf(data) else None
  {
    BlanksGo(text, Padding(|text|));
    PaddingDecides(data, |text|);
  }

  /**
   * Exactly which texts without padding decode: blanks are skipped, but they count towards the padding
   * the decoder adds, so their number must be a multiple of four unless the whole length is.
   */
  lemma {:induction false} BlankTextDecodes(value: string)
    requires '=' !in value
    ensures var data := Filter(Replaced(value, PlainLetter), NotBlank());
      Decoded(value) == if |data| % 4 == |value| % 4 || |value| % 4 == 0 then DataOf(data) else None
  {
    var text := Replaced(value, PlainLetter);
    NoPaddingReplaced(value);
    FilterMembers(text, NotBlank());
    AtobOfPadded(text, Filter(text, NotBlank()));
  }
}
