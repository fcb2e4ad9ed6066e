/** The component's random helpers, with `Math.random` as an injected
    stream of draws in [0, 1). */
module Random {
  import opened Cells

  /** The alphabet `getRandomString` draws from: the upper-case letters,
      then the lower-case ones. It is written as four 13-letter literals, the
      same string as one, because the verifier cannot look up characters
      of a single 52-character literal within its resource limit. */
  const Letters: string := "ABCDEFGHIJKLM" + "NOPQRSTUVWXYZ" + "abcdefghijklm" + "nopqrstuvwxyz"

  predicate IsAsciiLetter(c: char) {
    'A' <= c <= 'Z' || 'a' <= c <= 'z'
  }

  /** The alphabet is exactly the 52 ASCII letters. */
  lemma LettersAreAsciiLetters()
    ensures |Letters| == 52
    ensures forall c :: c in Letters <==> IsAsciiLetter(c)
  {
  }

  /** `Math.floor(u * n)` for a draw u of `Math.random`. */
  function Scale(u: real, n: nat): (k: nat)
    requires 0.0 <= u < 1.0
    requires n > 0
    ensures k < n
    ensures k as real <= u * n as real < k as real + 1.0
  {
    assert 0.0 <= u * n as real < n as real by {
      assert u * n as real <= n as real * u;
    }
    (u * n as real).Floor
  }

  /** The cell kinds a random value can have, and their ranges. */
  predicate IsRandomValue(v: CellValue) {
    match v
    case Text(s) => |s| == 5 && forall i :: 0 <= i < |s| ==> s[i] in Letters
    case Number(x) => x == x.Floor as real && 0.0 <= x < 1000.0
    case Boolean(_) => true
    case RichText(_) => false
    case Composite(_) => false
  }

  /** `Math.random`: `draw(k)` is the value its k-th call returns. */
  class MathRandom {
    const draw: nat -> real
    var calls: nat

    ghost predicate Valid() {
      forall k: nat :: 0.0 <= draw(k) < 1.0
    }

    constructor (draw: nat -> real)
      requires forall k: nat :: 0.0 <= draw(k) < 1.0
      ensures Valid() && this.draw == draw && calls == 0
    {
      this.draw := draw;
      calls := 0;
    }

    method Next() returns (u: real)
      requires Valid()
      modifies this
      ensures u == draw(old(calls)) && calls == old(calls) + 1
      ensures 0.0 <= u < 1.0
    {
      u := draw(calls);
      calls := calls + 1;
    }
  }

  /** `getRandomString(length)`: one letter per draw, appended in order. */
  method GetRandomString(rng: MathRandom, length: nat) returns (s: string)
    requires rng.Valid()
    modifies rng
    ensures rng.calls == old(rng.calls) + length
    ensures |s| == length
    ensures forall i :: 0 <= i < length ==> s[i] == Letters[Scale(rng.draw(old(rng.calls) + i), 52)]
    ensures forall i :: 0 <= i < |s| ==> IsAsciiLetter(s[i])
  {
    LettersAreAsciiLetters();
    s := "";
    var i := 0;
    while i < length
      invariant 0 <= i <= length
      invariant rng.calls == old(rng.calls) + i
      invariant |s| == i
      invariant forall k :: 0 <= k < i ==> s[k] == Letters[Scale(rng.draw(old(rng.calls) + k), 52)]
    {
      var u := rng.Next();
      s := s + [Letters[Scale(u, |Letters|)]];
      i := i + 1;
    }
  }

  /** `getRandomNumber()`: an integer in [0, 1000). */
  method GetRandomNumber(rng: MathRandom) returns (n: nat)
    requires rng.Valid()
    modifies rng
    ensures rng.calls == old(rng.calls) + 1
    ensures n == Scale(rng.draw(old(rng.calls)), 1000)
    ensures n < 1000
  {
    var u := rng.Next();
    n := Scale(u, 1000);
  }

  /** `getRandomBoolean()`: true when the draw is below one half. */
  method GetRandomBoolean(rng: MathRandom) returns (b: bool)
    requires rng.Valid()
    modifies rng
    ensures rng.calls == old(rng.calls) + 1
    ensures b <==> rng.draw(old(rng.calls)) < 0.5
  {
    var u := rng.Next();
    b := u < 0.5;
  }

  /** The value of one synthesized cell: a first draw picks the kind
      (0 string, 1 number, 2 boolean), then the helper draws the value. */
  method RandomValue(rng: MathRandom) returns (v: CellValue)
    requires rng.Valid()
    modifies rng
    ensures IsRandomValue(v)
    ensures var kind := Scale(rng.draw(old(rng.calls)), 3);
            (kind == 0 <==> v.Text?) && (kind == 1 <==> v.Number?) && (kind == 2 <==> v.Boolean?)
    ensures rng.calls == old(rng.calls) + (if v.Text? then 6 else 2)
  {
    LettersAreAsciiLetters();
    var u := rng.Next();
    var randomValueType := Scale(u, 3);
    if randomValueType == 0 {
      var s := GetRandomString(rng, 5);
      v := Text(s);
    } else if randomValueType == 1 {
      var n := GetRandomNumber(rng);
      v := Number(n as real);
    } else {
      var b := GetRandomBoolean(rng);
      v := Boolean(b);
    }
  }
}
