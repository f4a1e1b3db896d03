/** Short-code generation: a buffer of `n` characters filled from a fixed
    alphabet by a random source, one store lookup, and a retry loop.

    The random source is an oracle: `rand(i)` is the index into the alphabet
    that the i-th call of the generator's `Intn(63)` returns. The store lookup
    the generator makes filters on the character buffer rather than on the
    string built from it, so what it reports is taken as an input (`probe`).

    The retry loop runs while that lookup's error is not "no documents", but its
    body only refills the buffer and never repeats the lookup: once entered it
    never ends. `rounds` is the number of its iterations the model observes; the
    result says that after that many the loop is still running. */
module Generator {
  import opened Patterns
  import opened Store

  /** `n` consecutive characters starting at `first`. */
  function CharRange(first: char, n: nat): (s: string)
    requires first as int + n <= 0xD800
    ensures |s| == n && forall i :: 0 <= i < n ==> s[i] as int == first as int + i
  {
    seq(n, i requires 0 <= i < n => (first as int + i) as char)
  }

  /** The alphabet of codes: 26 + 26 + 10 + 1 = 63 symbols. */
  const Letters: string := CharRange('a', 26) + CharRange('A', 26) + CharRange('0', 10) + "_"

  /** A value `Intn(len(Letters))` can return. */
  type LetterIndex = i: nat | i < |Letters|

  /** The alphabet, letter by letter, in the order the generator indexes it. */
  lemma LettersSpelled()
    ensures Letters == "abcdefghijklmnopqrstuvwxyzABCDEFGHIJKLMNOPQRSTUVWXYZ0123456789_"
  {
    assert CharRange('a', 26) == "abcdefghijklmnopqrstuvwxyz";
    assert CharRange('A', 26) == "ABCDEFGHIJKLMNOPQRSTUVWXYZ";
    assert CharRange('0', 10) == "0123456789";
  }

  /** The alphabet has 63 symbols, and they are exactly the word characters
      `[a-zA-Z_0-9]` of the path pattern. */
  lemma LettersAreWordChars()
    ensures |Letters| == 63
    ensures forall c :: c in Letters <==> IsWordChar(c)
  {
    forall c | IsWordChar(c) ensures c in Letters {
      var k: int :=
        if 'a' <= c <= 'z' then c as int - 'a' as int
        else if 'A' <= c <= 'Z' then 26 + c as int - 'A' as int
        else if '0' <= c <= '9' then 52 + c as int - '0' as int
        else 62;
      assert 0 <= k < 63 && Letters[k] == c;
    }
  }

  /** The `n` letters drawn with calls `from`, ..., `from + n - 1` of the random source. */
  function Draw(rand: nat -> LetterIndex, from: nat, n: nat): (s: string)
    ensures |s| == n
  {
    seq(n, i requires 0 <= i < n => Letters[rand(from + i)])
  }

  /** What the generator has produced: a code it returns, or the buffer it is
      still refilling in a retry loop that does not end. */
  datatype Generation = Returned(code: string) | Retrying(pending: string)

  /** The generator's result after it has run `rounds` iterations of its retry
      loop (or returned before entering it). */
  function Generate(n: nat, rand: nat -> LetterIndex, probe: Outcome, rounds: nat): Generation {
    if probe == NoDocuments then Returned(Draw(rand, 0, n))
    else Retrying(Draw(rand, n * rounds, n))
  }

  /** A returned code has length `n` and uses the alphabet only; the generator
      returns one exactly when its lookup reported "no documents", however many
      iterations of the retry loop are observed. */
  lemma GeneratedCodeShape(n: nat, rand: nat -> LetterIndex, probe: Outcome, rounds: nat)
    ensures Generate(n, rand, probe, rounds).Returned? <==> probe == NoDocuments
    ensures Generate(n, rand, probe, rounds).Returned? ==>
              var c := Generate(n, rand, probe, rounds).code;
              |c| == n && forall i :: 0 <= i < n ==> c[i] in Letters && IsWordChar(c[i])
  {
  }

  /** Fills the whole buffer in place, one random letter per position. */
  method Fill(s: array<char>, rand: nat -> LetterIndex, from: nat)
    modifies s
    ensures s[..] == Draw(rand, from, s.Length)
  {
    for i := 0 to s.Length
      invariant forall j :: 0 <= j < i ==> s[j] == Letters[rand(from + j)]
    {
      s[i] := Letters[rand(from + i)];
    }
  }

  /** The generator as written: fill the buffer, look it up once, then loop
      while that lookup's error is not "no documents", refilling the buffer on
      each iteration. At most `rounds` iterations are run. */
  method GenerateCode(n: nat, rand: nat -> LetterIndex, probe: Outcome, rounds: nat) returns (g: Generation)
    ensures g == Generate(n, rand, probe, rounds)
    ensures g.Returned? <==> probe == NoDocuments
    ensures g.Returned? ==> |g.code| == n && forall i :: 0 <= i < n ==> g.code[i] in Letters
  {
    var s := new char[n];
    Fill(s, rand, 0);
    var err := probe;
    var k := 0;
    while err != NoDocuments && k < rounds
      invariant k <= rounds
      invariant err == probe
      invariant k == 0 || err != NoDocuments
      invariant s.Length == n
      invariant s[..] == Draw(rand, n * k, n)
    {
      Fill(s, rand, n * (k + 1));
      k := k + 1;
    }
    if err == NoDocuments {
      g := Returned(s[..]);
    } else {
      g := Retrying(s[..]);
    }
  }
}
