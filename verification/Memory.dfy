/** Bytes of memory, and the 32-bit little-endian words in them. */
module Memory {
  import opened Types

  type word = x: int | 0 <= x < 0x1_0000_0000

  function ReadWord(mem: seq<byte>, p: nat): word
    requires p + 4 <= |mem|
  {
    mem[p] as int + 0x100 * (mem[p + 1] as int) + 0x1_0000 * (mem[p + 2] as int) + 0x100_0000 * (mem[p + 3] as int)
  }

  function WordBytes(w: word): (s: seq<byte>)
    ensures |s| == 4
  {
    [w % 0x100, w / 0x100 % 0x100, w / 0x1_0000 % 0x100, w / 0x100_0000]
  }

  function StoreWord(mem: seq<byte>, p: nat, w: word): (r: seq<byte>)
    requires p + 4 <= |mem|
    ensures |r| == |mem|
    ensures forall x :: 0 <= x < |mem| && !(p <= x < p + 4) ==> r[x] == mem[x]
  {
    mem[p := WordBytes(w)[0]][p + 1 := WordBytes(w)[1]][p + 2 := WordBytes(w)[2]][p + 3 := WordBytes(w)[3]]
  }

  lemma WordRoundTrip(w: word)
    ensures var s := WordBytes(w); s[0] as int + 0x100 * (s[1] as int) + 0x1_0000 * (s[2] as int) + 0x100_0000 * (s[3] as int) == w
  {
    assert w / 0x1_0000 == w / 0x100 / 0x100;
    assert w / 0x100_0000 == w / 0x1_0000 / 0x100;
  }

  lemma ReadStored(mem: seq<byte>, p: nat, w: word)
    requires p + 4 <= |mem|
    ensures ReadWord(StoreWord(mem, p, w), p) == w
  {
    hide WordBytes;
    WordRoundTrip(w);
  }

  /** Reading elsewhere. */
  lemma ReadKept(mem: seq<byte>, mem1: seq<byte>, p: nat)
    requires p + 4 <= |mem| && |mem| == |mem1|
    requires forall x :: p <= x < p + 4 ==> mem1[x] == mem[x]
    ensures ReadWord(mem1, p) == ReadWord(mem, p)
  {
  }
}
