/** Unsigned 16-bit words: what a register shows of an unbounded counter. */
module Word16 {
  const WORD: int := 0x1_0000

  function Word(x: int): (w: nat)
    ensures w < WORD
  {
    x % WORD
  }
}

/** The same for 32 bits. */
module Word32 {
  import Bits

  const WORD: int := 0x1_0000_0000
  const HALF: int := 0x8000_0000

  function Word(x: int): (w: nat)
    ensures w < WORD
  {
    x % WORD
  }

  lemma WordOfDifference(x: int, y: int)
    ensures Word(Word(x) - Word(y)) == Word(x - y)
  {
  }

  lemma WordAddMultiple(a: int, k: int)
    ensures Word(a + k * WORD) == Word(a)
  {
  }

  lemma WordOfSum(x: int, y: int)
    ensures Word(Word(x) + Word(y)) == Word(x + y)
  {
    WordOfDifference(x, -y);
    WordAddMultiple(Word(x) + Word(y), 0);
  }

  lemma ModOfMod(p: nat, h: nat, m: nat)
    requires m > 0 && h * m == WORD
    ensures Word(p) % m == p % m
  {
    var q, w := Bits.Decompose(p, WORD);
    var e, r := Bits.Decompose(w, m);
    Nest(q, h, m, e, r);
    Bits.DivModUnique(q * h + e, r, m);
  }

  lemma Nest(q: nat, h: nat, m: nat, e: nat, r: nat)
    ensures q * (h * m) + (e * m + r) == (q * h + e) * m + r
  {
    Bits.MulAssoc(q, h, m);
  }

  /** The remainder of every number survives the wrap exactly if the divisor divides 2^32. */
  lemma RemainderOfWord(m: nat)
    requires m > 0
    ensures (forall p: nat :: Word(p) % m == p % m) <==> WORD % m == 0
  {
    var h, r := Bits.Decompose(WORD, m);
    if r == 0 {
      forall p: nat ensures Word(p) % m == p % m { ModOfMod(p, h, m); }
    } else {
      Bits.DivModUnique(0, 0, m);
      assert Word(WORD) == 0;
    }
  }
}

/** The same for 64 bits. */
module Word64 {
  const WORD: int := 0x1_0000_0000_0000_0000
  const HALF: int := 0x8000_0000_0000_0000

  function Word(x: int): (w: nat)
    ensures w < WORD
  {
    x % WORD
  }

  lemma WordOfDifference(x: int, y: int)
    ensures Word(Word(x) - Word(y)) == Word(x - y)
  {
  }

  lemma WordAddMultiple(a: int, k: int)
    ensures Word(a + k * WORD) == Word(a)
  {
  }
}
