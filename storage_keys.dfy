/**
 * The browser-storage keys of the client, `p-<id>-guesses` and
 * `p-<id>-story`, where `<id>` is the puzzle id as a template literal prints
 * an integer whose magnitude is below 10^21 (larger numbers print in exponent
 * form, which is not modelled). The lemmas show that distinct puzzles never share a key and
 * that a log key is never a story key.
 */
module StorageKeys {

  predicate IsDigit(c: char)
  {
    '0' <= c <= '9'
  }

  predicate AllDigits(s: string)
  {
    forall i :: 0 <= i < |s| ==> IsDigit(s[i])
  }

  function DigitChar(d: nat): (c: char)
    requires d < 10
    ensures IsDigit(c) && c as int - '0' as int == d
  {
    ('0' as int + d) as char
  }

  /** The decimal numeral of `n`, most significant digit first, no leading zeros. */
  function Decimal(n: nat): (s: string)
    ensures 1 <= |s| && AllDigits(s)
    ensures s[0] == '0' ==> n == 0
    decreases n
  {
    if n < 10 then [DigitChar(n)] else Decimal(n / 10) + [DigitChar(n % 10)]
  }

  /** The number a string of digits denotes. */
  function DigitsValue(s: string): nat
    requires AllDigits(s)
  {
    if s == [] then 0 else DigitsValue(s[..|s| - 1]) * 10 + (s[|s| - 1] as int - '0' as int)
  }

  /** Reading a numeral back gives the number it was printed from. */
  lemma {:induction false} DecimalRoundTrip(n: nat)
    ensures DigitsValue(Decimal(n)) == n
    decreases n
  {
    var s := Decimal(n);
    if n < 10 {
      assert s[..|s| - 1] == [];
    } else {
      assert s[..|s| - 1] == Decimal(n / 10);
      DecimalRoundTrip(n / 10);
    }
  }

  /** `${id}` for an integer id: a minus sign for negative ids, then the
      numeral of its magnitude. */
  function IdText(id: int): (s: string)
    ensures 1 <= |s| && (s[0] == '-' <==> id < 0)
  {
    if id < 0 then "-" + Decimal(-id)
    else
      assert IsDigit(Decimal(id)[0]);
      Decimal(id)
  }

  lemma IdTextInjective(a: int, b: int)
    requires IdText(a) == IdText(b)
    ensures a == b
  {
    var ta := IdText(a);
    if a < 0 {
      assert b < 0;
      assert Decimal(-a) == ta[1..] == Decimal(-b);
      DecimalRoundTrip(-a);
      DecimalRoundTrip(-b);
    } else {
      assert b >= 0;
      DecimalRoundTrip(a);
      DecimalRoundTrip(b);
    }
  }

  /** The key of a puzzle's guess log: the id text between `p-` and `-guesses`. */
  function GuessesKey(id: int): (k: string)
    ensures |k| == |IdText(id)| + 10
    ensures k[..2] == "p-" && k[2..|k| - 8] == IdText(id) && k[|k| - 8..] == "-guesses"
  {
    "p-" + IdText(id) + "-guesses"
  }

  /** The key of a puzzle's story: the id text between `p-` and `-story`. */
  function StoryKey(id: int): (k: string)
    ensures |k| == |IdText(id)| + 8
    ensures k[..2] == "p-" && k[2..|k| - 6] == IdText(id) && k[|k| - 6..] == "-story"
  {
    "p-" + IdText(id) + "-story"
  }

  /** The keys of two puzzles coincide only when the puzzles do, and a
      guess-log key is never a story key. */
  lemma KeysSeparate(a: int, b: int)
    ensures GuessesKey(a) == GuessesKey(b) ==> a == b
    ensures StoryKey(a) == StoryKey(b) ==> a == b
    ensures GuessesKey(a) != StoryKey(b)
  {
    var ga, gb := GuessesKey(a), GuessesKey(b);
    if ga == gb {
      assert ga[2..|ga| - 8] == IdText(a);
      assert gb[2..|gb| - 8] == IdText(b);
      IdTextInjective(a, b);
    }
    var sa, sb := StoryKey(a), StoryKey(b);
    if sa == sb {
      assert sa[2..|sa| - 6] == IdText(a);
      assert sb[2..|sb| - 6] == IdText(b);
      IdTextInjective(a, b);
    }
    assert ga[|ga| - 1] == 's';
    assert sb[|sb| - 1] == 'y';
  }
}
