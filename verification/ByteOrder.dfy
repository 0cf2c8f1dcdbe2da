/** Numbers in the memory of hosts of either byte order, and swapping between the two. */
module ByteOrder {

  type Byte = b: int | 0 <= b < 256

  // ---- swapping the bytes of every item of a buffer ----

  function Reversed(s: seq<Byte>): (r: seq<Byte>)
    ensures |r| == |s|
  {
    seq(|s|, k requires 0 <= k < |s| => s[|s| - 1 - k])
  }

  /** Each of the first `items` items of `size` bytes reversed, the rest left alone. */
  function Swapped(s: seq<Byte>, size: nat, items: nat): (r: seq<Byte>)
    requires size * items <= |s|
    ensures |r| == |s|
    decreases items
  {
    if items == 0 then s
    else
      Fits(size, items);
      Reversed(s[..size]) + Swapped(s[size..], size, items - 1)
  }

  lemma Fits(size: nat, items: nat)
    requires items > 0
    ensures size * items == size + size * (items - 1)
    ensures 0 <= size * (items - 1)
  {
  }

  lemma ReversedTwice(s: seq<Byte>)
    ensures Reversed(Reversed(s)) == s
  {
  }

  /** Swapping twice changes nothing, for every item size and count. */
  lemma {:induction false} SwappedTwice(s: seq<Byte>, size: nat, items: nat)
    requires size * items <= |s|
    ensures Swapped(Swapped(s, size, items), size, items) == s
    decreases items
  {
    if items > 0 {
      Fits(size, items);
      var head, tail := s[..size], s[size..];
      var t := Swapped(s, size, items);
      assert t == Reversed(head) + Swapped(tail, size, items - 1);
      assert t[..size] == Reversed(head) && t[size..] == Swapped(tail, size, items - 1);
      ReversedTwice(head);
      SwappedTwice(tail, size, items - 1);
      assert s == head + tail;
    }
  }

  /** Byte by byte: within an item the order is turned round. */
  lemma {:induction false} SwappedAt(s: seq<Byte>, size: nat, items: nat, i: nat, j: nat)
    requires size * items <= |s| && i < items && j < size
    ensures 0 <= size * i && size * i + size <= |s|
    ensures Swapped(s, size, items)[size * i + j] == s[size * i + (size - 1 - j)]
    decreases items
  {
    Fits(size, items);
    Fits(size, i + 1);
    if i > 0 {
      SwappedAt(s[size..], size, items - 1, i - 1, j);
      Fits(size, i);
    }
  }

  /** What follows the items is left alone. */
  lemma {:induction false} SwappedPrefix(s: seq<Byte>, rest: seq<Byte>, size: nat, items: nat)
    requires size * items <= |s|
    ensures Swapped(s + rest, size, items) == Swapped(s, size, items) + rest
    decreases items
  {
    if items > 0 {
      Fits(size, items);
      assert (s + rest)[..size] == s[..size] && (s + rest)[size..] == s[size..] + rest;
      SwappedPrefix(s[size..], rest, size, items - 1);
    }
  }

  /** Splitting off the first of the items still to be swapped. */
  lemma SwapNext(front: seq<Byte>, item: seq<Byte>, tail: seq<Byte>, items: nat)
    requires items > 0 && |item| * items <= |item + tail|
    ensures |item| * (items - 1) <= |tail|
    ensures front + Swapped(item + tail, |item|, items) == (front + Reversed(item)) + Swapped(tail, |item|, items - 1)
  {
    Fits(|item|, items);
    assert (item + tail)[..|item|] == item && (item + tail)[|item|..] == tail;
  }

  /** Swaps the bytes of `items` items of `typeSize` bytes, from position `start` on. */
  method ByteSwap(buff: array<Byte>, start: nat, typeSize: nat, items: nat)
    requires 0 < typeSize && start + typeSize * items <= buff.Length
    modifies buff
    ensures buff[..] == old(buff[..start]) + Swapped(old(buff[start..]), typeSize, items)
  {
    ghost var front, rest := buff[..start], buff[start..];
    ghost var goal := front + Swapped(rest, typeSize, items);
    var itemsCnt := items;
    var b := start;
    while itemsCnt > 0
      invariant |front| == b && buff[..] == front + rest && typeSize * itemsCnt <= |rest|
      invariant front + Swapped(rest, typeSize, itemsCnt) == goal
    {
      Fits(typeSize, itemsCnt);
      ghost var item, tail := rest[..typeSize], rest[typeSize..];
      assert rest == item + tail;
      assert buff[..] == front + item + tail;
      ghost var before := buff[..];
      SwapItem(buff, b, typeSize);
      ItemReversed(before, buff[..], front, item, tail);
      SwapNext(front, item, tail, itemsCnt);
      front, rest := front + Reversed(item), tail;
      b := b + typeSize;
      itemsCnt := itemsCnt - 1;
    }
  }

  /** Where the byte at `k` comes from when the item from `b` on is reversed. */
  function Mirror(b: int, typeSize: int, k: int): int {
    2 * b + typeSize - 1 - k
  }

  /** Reverses one item in place. */
  method SwapItem(buff: array<Byte>, b: nat, typeSize: nat)
    requires 0 < typeSize && b + typeSize <= buff.Length
    modifies buff
    ensures forall k :: 0 <= k < buff.Length ==>
      buff[k] == old(buff[if b <= k < b + typeSize then Mirror(b, typeSize, k) else k])
  {
    var i, j := 0, typeSize - 1;
    while i < j
      invariant i + j == typeSize - 1 && i <= j + 1
      invariant forall k :: 0 <= k < b || b + i <= k <= b + j || b + typeSize <= k < buff.Length ==>
        buff[k] == old(buff[k])
      invariant forall k :: b <= k < b + i || b + j < k < b + typeSize ==> buff[k] == old(buff[Mirror(b, typeSize, k)])
    {
      buff[b + i], buff[b + j] := buff[b + j], buff[b + i];
      i, j := i + 1, j - 1;
    }
  }

  lemma ItemReversed(before: seq<Byte>, after: seq<Byte>, front: seq<Byte>, item: seq<Byte>, tail: seq<Byte>)
    requires before == front + item + tail && |after| == |before|
    requires forall k :: 0 <= k < |after| ==>
      after[k] == before[if |front| <= k < |front| + |item| then Mirror(|front|, |item|, k) else k]
    ensures after == front + Reversed(item) + tail
  {
  }
}
