/** Machine integers and constants shared by the components. */
module Common {

  /** DMX_MAX_SLOTS: the start code and 512 slots. */
  const MAX_SLOTS := 513

  /** UART_FIFO_LEN: the size of each hardware FIFO. */
  const FIFO_LEN := 128

  /** UART_EMPTY_THRESH_DEFAULT: TXFIFO_EMPTY is raised with fewer bytes than this in the FIFO. */
  const EMPTY_THRESH := 10

  /** A `uint8_t`. */
  type byte = b: int | 0 <= b < 0x100

  /** A `uint16_t`. */
  type word = w: int | 0 <= w < 0x1_0000

  function HighByte(w: word): byte { w / 0x100 }

  function LowByte(w: word): byte { w % 0x100 }

  /** `(uint16_t) h << 8 | l`. */
  function Join(h: byte, l: byte): word { h * 0x100 + l }

  /** C's `x && 0xFF` on an integer: a truth value, not a mask. */
  function LogicalAnd(x: int): byte { if x != 0 then 1 else 0 }

  function Min(a: nat, b: nat): nat { if a <= b then a else b }

  lemma CutSuffix<T>(a: seq<T>, b: seq<T>, c: seq<T>)
    requires a + c == b + c
    ensures a == b
  {
    assert |a| == |b|;
    assert a == (a + c)[..|a|];
    assert b == (b + c)[..|b|];
  }

  lemma CutPrefix<T>(a: seq<T>, b: seq<T>, c: seq<T>)
    requires a + b == a + c
    ensures b == c
  {
    assert b == (a + b)[|a|..];
    assert c == (a + c)[|a|..];
  }

  lemma SliceAppend<T>(a: seq<T>, b: seq<T>, n: nat)
    requires n <= |b|
    ensures (a + b)[|a|..|a| + n] == b[..n] && (a + b)[|a| + n..] == b[n..] && (a + b)[..|a| + n] == a + b[..n]
  {
  }
}
