/** Rows of bits packed 64 to a word, least-significant bit first. A word is its 64 bits. */
module Bits {

  type Word = w: seq<bool> | |w| == 64 witness seq(64, i => false)
  type Row = seq<Word>

  /** The word that holds `index` and the position of its bit within that word. */
  function BitSlot(index: nat): (slot: (nat, nat))
    ensures slot.1 < 64 && 64 * slot.0 + slot.1 == index
  {
    (index / 64, index % 64)
  }

  predicate Has(row: Row, index: nat) {
    var (word, bit) := BitSlot(index);
    word < |row| && row[word][bit]
  }

  function SetBit(row: Row, index: nat, value: bool): Row
    requires index < 64 * |row|
  {
    var (word, bit) := BitSlot(index);
    row[word := row[word][bit := value]]
  }

  /** Writing a bit changes that bit and no other. */
  lemma SetBitHas(row: Row, index: nat, value: bool, i: nat)
    requires index < 64 * |row|
    ensures Has(SetBit(row, index, value), i) <==> if i == index then value else Has(row, i)
  {
  }

  const ZeroWord: Word := seq(64, i => false)

  function Zero(words: nat): Row { seq(words, i => ZeroWord) }

  lemma ZeroHas(words: nat, i: nat)
    ensures !Has(Zero(words), i)
  {
  }

  function OrWord(a: Word, b: Word): Word { seq(64, i requires 0 <= i < 64 => a[i] || b[i]) }

  function AndNotWord(a: Word, b: Word): Word { seq(64, i requires 0 <= i < 64 => a[i] && !b[i]) }

  function Or(a: Row, b: Row): Row
    requires |a| == |b|
  {
    seq(|a|, i requires 0 <= i < |a| => OrWord(a[i], b[i]))
  }

  lemma OrHas(a: Row, b: Row, i: nat)
    requires |a| == |b|
    ensures Has(Or(a, b), i) <==> Has(a, i) || Has(b, i)
  {
  }

  /** One word of the backward transfer of liveness: `((out | seed) & !writes) | exposed`, joined with what an
      unwind reads and no write before the first throw has covered. */
  function TransferWord(out: Word, seed: Word, writes: Word, exposed: Word, unwind: Word, early: Word): Word {
    OrWord(OrWord(AndNotWord(OrWord(out, seed), writes), exposed), AndNotWord(unwind, early))
  }

  lemma TransferWordHas(out: Word, seed: Word, writes: Word, exposed: Word, unwind: Word, early: Word, j: nat)
    requires j < 64
    ensures TransferWord(out, seed, writes, exposed, unwind, early)[j] <==>
              ((out[j] || seed[j]) && !writes[j]) || exposed[j] || (unwind[j] && !early[j])
  {
  }

  predicate NonZero(w: Word) { exists k :: 0 <= k < 64 && w[k] }

  /** The position of the lowest set bit at or above `from`. */
  function TrailingZeros(w: Word, from: nat): (j: nat)
    requires exists k :: from <= k < 64 && w[k]
    ensures from <= j < 64 && w[j] && forall k :: from <= k < j ==> !w[k]
    decreases 64 - from
  {
    if w[from] then from else TrailingZeros(w, from + 1)
  }

  /** The set positions of one word, ascending; each step clears the lowest set bit of what remains. */
  method OnesOfWord(word: Word, base: nat) returns (ones: seq<nat>)
    requires base % 64 == 0
    ensures forall i: nat {:trigger i in ones} :: i in ones <==> base <= i < base + 64 && word[i - base]
    ensures forall i, j :: 0 <= i < j < |ones| ==> ones[i] < ones[j]
  {
    var remaining := word;
    ghost var next := 0;
    ones := [];
    while NonZero(remaining)
      invariant 0 <= next <= 64
      invariant forall j :: 0 <= j < 64 ==> (remaining[j] <==> next <= j && word[j])
      invariant forall i: nat {:trigger i in ones} :: i in ones <==> base <= i < base + next && word[i - base]
      invariant forall i, j :: 0 <= i < j < |ones| ==> ones[i] < ones[j]
      decreases 64 - next
    {
      var bit := TrailingZeros(remaining, 0);
      assert forall i :: 0 <= i < |ones| ==> ones[i] in ones;
      remaining := remaining[bit := false];
      ones := ones + [base + bit];
      next := bit + 1;
    }
  }

  /** The set indices of a row, ascending. */
  method OnesOf(row: Row) returns (ones: seq<nat>)
    ensures forall i: nat {:trigger i in ones} :: i in ones <==> Has(row, i)
    ensures forall i, j :: 0 <= i < j < |ones| ==> ones[i] < ones[j]
  {
    ones := [];
    for position := 0 to |row|
      invariant forall i: nat {:trigger i in ones} :: i in ones <==> i < 64 * position && Has(row, i)
      invariant forall i, j :: 0 <= i < j < |ones| ==> ones[i] < ones[j]
    {
      var more := OnesOfWord(row[position], 64 * position);
      assert forall i :: 0 <= i < |ones| ==> ones[i] in ones;
      assert forall i :: 0 <= i < |more| ==> more[i] in more;
      forall i: nat ensures i in more <==> 64 * position <= i < 64 * (position + 1) && Has(row, i) {
        if 64 * position <= i < 64 * (position + 1) {
          assert BitSlot(i) == (position, i - 64 * position);
        }
      }
      ones := ones + more;
    }
  }
}
