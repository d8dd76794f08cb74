/** The standard base64 encoding with padding (section 4 of RFC 4648). */
module Base64 {
  type byte = x: int | 0 <= x < 256
  type sextet = x: int | 0 <= x < 64

  /** The letter of a sextet: A-Z, a-z, 0-9, + and /. */
  function Letter(v: sextet): char {
    if v < 26 then ('A' as int + v) as char
    else if v < 52 then ('a' as int + v - 26) as char
    else if v < 62 then ('0' as int + v - 52) as char
    else if v == 62 then '+'
    else '/'
  }

  /** One quantum of 24 bits as four letters. */
  function Quantum(a: byte, b: byte, c: byte): (t: string)
    ensures |t| == 4
  {
    [Letter(a / 4), Letter(a % 4 * 16 + b / 16), Letter(b % 16 * 4 + c / 64), Letter(c % 64)]
  }

  function Encode(data: seq<byte>): string {
    if |data| == 0 then ""
    else if |data| == 1 then Quantum(data[0], 0, 0)[..2] + "=="
    else if |data| == 2 then Quantum(data[0], data[1], 0)[..3] + "="
    else Quantum(data[0], data[1], data[2]) + Encode(data[3..])
  }

  /** The value of a letter; anything else, like the padding, counts as zero. */
  function Value(c: char): (v: sextet) {
    if 'A' <= c <= 'Z' then c as int - 'A' as int
    else if 'a' <= c <= 'z' then c as int - 'a' as int + 26
    else if '0' <= c <= '9' then c as int - '0' as int + 52
    else if c == '+' then 62
    else if c == '/' then 63
    else 0
  }

  function Decode(text: string): seq<byte> {
    if |text| < 4 then []
    else
      var p, q, r, s := Value(text[0]), Value(text[1]), Value(text[2]), Value(text[3]);
      var quantum: seq<byte> := [p * 4 + q / 16, q % 16 * 16 + r / 4, r % 4 * 64 + s];
      var n := if text[2] == '=' then 1 else if text[3] == '=' then 2 else 3;
      quantum[..n] + Decode(text[4..])
  }

  /** Every started group of three bytes takes four letters. */
  lemma {:induction false} EncodedLength(data: seq<byte>)
    ensures |Encode(data)| == (|data| + 2) / 3 * 4
    ensures 3 * |Encode(data)| <= 4 * |data| + 8
  {
    hide Letter;
    if |data| >= 3 {
      EncodedLength(data[3..]);
      var rest := |data| - 3;
      assert (rest + 3 + 2) / 3 == (rest + 2) / 3 + 1;
    }
  }

  lemma LetterValue(v: sextet)
    ensures Value(Letter(v)) == v && Letter(v) != '='
  {
  }

  lemma QuantumDecodes(a: byte, b: byte, c: byte)
    ensures var t := Quantum(a, b, c);
            && Value(t[0]) * 4 + Value(t[1]) / 16 == a
            && Value(t[1]) % 16 * 16 + Value(t[2]) / 4 == b
            && Value(t[2]) % 4 * 64 + Value(t[3]) == c
            && forall i :: 0 <= i < 4 ==> t[i] != '='
  {
    hide Value, Letter;
    LetterValue(a / 4);
    LetterValue(a % 4 * 16 + b / 16);
    LetterValue(b % 16 * 4 + c / 64);
    LetterValue(c % 64);
  }

  /** Decoding the encoding gives the bytes back: nothing is cut off or added. */
  lemma {:induction false} DecodeEncode(data: seq<byte>)
    ensures Decode(Encode(data)) == data
  {
    hide Value, Letter;
    if |data| == 1 {
      QuantumDecodes(data[0], 0, 0);
    } else if |data| == 2 {
      QuantumDecodes(data[0], data[1], 0);
    } else if |data| >= 3 {
      QuantumDecodes(data[0], data[1], data[2]);
      DecodeEncode(data[3..]);
      assert Encode(data)[4..] == Encode(data[3..]);
    }
  }

  /** The alphabet: four runs of letters, from A, a, 0 and +. */
  lemma AlphabetInRuns(v: sextet)
    ensures Letter(0) == 'A' && Letter(25) == 'Z' && Letter(26) == 'a' && Letter(51) == 'z'
    ensures Letter(52) == '0' && Letter(61) == '9' && Letter(62) == '+' && Letter(63) == '/'
    ensures v < 61 && v != 25 && v != 51 ==> Letter(v + 1) as int == Letter(v) as int + 1
  {
  }

  /** The test vectors of section 10 of RFC 4648. */
  lemma TestVectors()
    ensures Encode([]) == "" && Encode([102]) == "Zg==" && Encode([102, 111]) == "Zm8="
    ensures Encode([102, 111, 111]) == "Zm9v" && Encode([102, 111, 111, 98]) == "Zm9vYg=="
    ensures Encode([102, 111, 111, 98, 97, 114]) == "Zm9vYmFy"
  {
    var b: seq<byte> := [102, 111, 111, 98];
    var r: seq<byte> := [102, 111, 111, 98, 97, 114];
    var foo: seq<byte> := [102, 111, 111];
    assert b[3..] == [98] && r[3..] == [98, 97, 114] && foo[3..] == [] && r[3..][3..] == [];
  }
}
