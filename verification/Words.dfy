/** Machine words of the modelled targets, and the Option type. */
module Words {
  const TWO_32: int := 0x1_0000_0000

  type byte = x: int | 0 <= x < 0x100
  type u16 = x: int | 0 <= x < 0x1_0000
  type u32 = x: int | 0 <= x < 0x1_0000_0000

  datatype Option<+T> = None | Some(value: T)

  /** C's unsigned sums and differences, with the single wrap-around written out. */
  function Add16(a: u16, b: u16): u16 {
    if a + b < 0x1_0000 then a + b else a + b - 0x1_0000
  }

  function Add32(a: u32, b: u32): u32 {
    if a + b < 0x1_0000_0000 then a + b else a + b - 0x1_0000_0000
  }

  function Sub32(a: u32, b: u32): u32 {
    if b <= a then a - b else a - b + 0x1_0000_0000
  }

  lemma Residue(word: u32, wraps: nat, x: int)
    requires x == word + 0x1_0000_0000 * wraps
    ensures x % 0x1_0000_0000 == word
  {
  }

  /** One wrapping sum more, before a sum modulo the word size. */
  lemma AddFirst16(a: u16, b: u16, rest: nat)
    ensures (Add16(a, b) + rest) % 0x1_0000 == (a + b + rest) % 0x1_0000
  {
  }

  lemma AddFirst32(a: u32, b: u32, rest: nat)
    ensures (Add32(a, b) + rest) % 0x1_0000_0000 == (a + b + rest) % 0x1_0000_0000
  {
  }

  lemma NoWrapExactly(x: nat)
    ensures x % 0x1_0000_0000 == x <==> x < 0x1_0000_0000
  {
  }
}
