/** Short-code generation (app/utils.py). The random draws of
    `random.choices` are an input: a sequence of indices into the alphabet. */
module ShortCode {

  /** Python's `string.ascii_lowercase`, `string.ascii_uppercase` and
      `string.digits`. */
  const AsciiLowercase: string := "abcdefghijklmnopqrstuvwxyz"
  const AsciiUppercase: string := "ABCDEFGHIJKLMNOPQRSTUVWXYZ"
  const Digits: string := "0123456789"
  const AsciiLetters: string := AsciiLowercase + AsciiUppercase

  /** The alphabet of `generate_short_code`: `ascii_letters + digits`. */
  const Alphabet: string := AsciiLetters + Digits

  const AlphabetSize := 62

  /** The default `k` of `generate_short_code`. */
  const DefaultLength := 10

  /** One draw of `random.choices`: a position in the alphabet. */
  type Draw = i: int | 0 <= i < 62

  predicate IsAsciiLetterOrDigit(c: char) {
    ('a' <= c <= 'z') || ('A' <= c <= 'Z') || ('0' <= c <= '9')
  }

  predicate IsShortCode(s: string) {
    forall i :: 0 <= i < |s| ==> IsAsciiLetterOrDigit(s[i])
  }

  /** The alphabet is a-z, then A-Z, then 0-9: 62 symbols in that order. */
  lemma AlphabetLayout()
    ensures |Alphabet| == AlphabetSize
    ensures forall i :: 0 <= i < 26 ==> Alphabet[i] as int == 'a' as int + i
    ensures forall i :: 26 <= i < 52 ==> Alphabet[i] as int == 'A' as int + (i - 26)
    ensures forall i :: 52 <= i < 62 ==> Alphabet[i] as int == '0' as int + (i - 52)
  {
  }

  /** Its 62 symbols are distinct and are exactly the ASCII letters and digits. */
  lemma AlphabetSymbols()
    ensures |Alphabet| == AlphabetSize
    ensures forall i, j :: 0 <= i < j < |Alphabet| ==> Alphabet[i] != Alphabet[j]
    ensures forall c :: c in Alphabet <==> IsAsciiLetterOrDigit(c)
  {
    AlphabetLayout();
    forall c | IsAsciiLetterOrDigit(c) ensures c in Alphabet {
      var i := if 'a' <= c <= 'z' then c as int - 'a' as int
               else if 'A' <= c <= 'Z' then c as int - 'A' as int + 26
               else c as int - '0' as int + 52;
      assert Alphabet[i] == c;
    }
  }

  /** `"".join(random.choices(alphabet, k=k))` for the given draws. */
  function Generate(k: nat, draws: seq<Draw>): (code: string)
    requires |draws| == k
    ensures |code| == k
    ensures forall i :: 0 <= i < k ==> code[i] == Alphabet[draws[i]]
  {
    if k == 0 then "" else [Alphabet[draws[0]]] + Generate(k - 1, draws[1..])
  }

  /** Every character of a generated code is an ASCII letter or digit. */
  lemma GeneratedIsShortCode(k: nat, draws: seq<Draw>)
    requires |draws| == k
    ensures IsShortCode(Generate(k, draws))
  {
    AlphabetSymbols();
    var code := Generate(k, draws);
    forall i | 0 <= i < k ensures IsAsciiLetterOrDigit(code[i]) {
      assert code[i] in Alphabet;
    }
  }

  /** Distinct draws give distinct codes: the code determines the draws. */
  lemma GenerateInjective(k: nat, d1: seq<Draw>, d2: seq<Draw>)
    requires |d1| == k && |d2| == k
    requires Generate(k, d1) == Generate(k, d2)
    ensures d1 == d2
  {
    AlphabetSymbols();
    forall i | 0 <= i < k ensures d1[i] == d2[i] {
      assert Alphabet[d1[i]] == Generate(k, d1)[i] == Generate(k, d2)[i] == Alphabet[d2[i]];
    }
  }

  /** `generate_short_code()`: ten draws. */
  function GenerateDefault(draws: seq<Draw>): (code: string)
    requires |draws| == DefaultLength
    ensures |code| == DefaultLength && IsShortCode(code)
    ensures code == Generate(DefaultLength, draws)
  {
    GeneratedIsShortCode(DefaultLength, draws);
    Generate(DefaultLength, draws)
  }
}
