/** Keys of the shard locks in etcd: `{prefix}/{shard id padded with zeros to 20 digits}`. */
module LockKey {
  import opened Common

  const WIDTH := 20

  /** `{:0>20}`: right-aligned, filled with zeros on the left, never truncated. */
  function Padded(n: nat): (s: string)
    ensures AllDigits(s)
  {
    var d := Decimal(n);
    if |d| < WIDTH then Repeat('0', WIDTH - |d|) + d else d
  }

  function Key(prefix: string, shard: ShardId): string {
    prefix + "/" + Padded(shard)
  }

  function CompareKeys(a: string, b: string): Ordering {
    CompareBytes(Codes(a), Codes(b))
  }

  lemma {:induction false} DecimalLength(n: nat, w: nat)
    requires w >= 1 && n < Pow10(w)
    ensures |Decimal(n)| <= w
  {
    if n >= 10 && w > 1 {
      DecimalLength(n / 10, w - 1);
    }
  }

  function Pow10(w: nat): nat { if w == 0 then 1 else 10 * Pow10(w - 1) }

  lemma ShardIdFits(shard: ShardId)
    ensures |Decimal(shard)| <= 10
  {
    assert Pow10(10) == 10_000_000_000 by {
      assert Pow10(5) == 100_000 by {
        assert Pow10(2) == 100;
        assert Pow10(3) == 1_000;
        assert Pow10(4) == 10_000;
      }
      assert Pow10(7) == 10_000_000;
      assert Pow10(9) == 1_000_000_000;
    }
    DecimalLength(shard, 10);
  }

  lemma {:induction false} LeadingZeros(k: nat, d: string)
    requires AllDigits(d)
    ensures AllDigits(Repeat('0', k) + d)
    ensures DigitsValue(Repeat('0', k) + d) == DigitsValue(d)
    decreases k + |d|
  {
    var s := Repeat('0', k) + d;
    if d != [] {
      assert s[..|s| - 1] == Repeat('0', k) + d[..|d| - 1];
      LeadingZeros(k, d[..|d| - 1]);
    } else if k > 0 {
      assert s[..|s| - 1] == Repeat('0', k - 1) + d;
      LeadingZeros(k - 1, d);
    }
  }

  /** On digit strings of one length, text order is number order. */
  lemma {:induction false} DigitOrder(a: string, b: string)
    requires |a| == |b| && AllDigits(a) && AllDigits(b)
    ensures CompareKeys(a, b) == CompareInt(DigitsValue(a), DigitsValue(b))
  {
    if a != [] {
      var k := |a| - 1;
      DigitOrder(a[..k], b[..k]);
      assert Codes(a) == Codes(a[..k]) + [a[k] as int];
      assert Codes(b) == Codes(b[..k]) + [b[k] as int];
      CompareBytesSnoc(Codes(a[..k]), Codes(b[..k]), a[k] as int, b[k] as int);
    }
  }

  lemma PaddedShardId(shard: ShardId)
    ensures |Padded(shard)| == WIDTH
    ensures DigitsValue(Padded(shard)) == shard
  {
    ShardIdFits(shard);
    DecimalValue(shard);
    LeadingZeros(WIDTH - |Decimal(shard)|, Decimal(shard));
  }

  /**
   * Lock keys sort exactly as their shard ids do: for every prefix and every two u32 ids,
   * the byte order of the keys is the numeric order of the ids.
   */
  lemma KeyOrder(prefix: string, a: ShardId, b: ShardId)
    ensures CompareKeys(Key(prefix, a), Key(prefix, b)) == CompareInt(a, b)
  {
    PaddedShardId(a);
    PaddedShardId(b);
    var p := Codes(prefix + "/");
    assert Codes(Key(prefix, a)) == p + Codes(Padded(a));
    assert Codes(Key(prefix, b)) == p + Codes(Padded(b));
    CompareBytesCommonPrefix(p, Codes(Padded(a)), Codes(Padded(b)));
    DigitOrder(Padded(a), Padded(b));
  }

  /** Two shards never share a lock key. */
  lemma KeyInjective(prefix: string, a: ShardId, b: ShardId)
    requires Key(prefix, a) == Key(prefix, b)
    ensures a == b
  {
    KeyOrder(prefix, a, b);
    CompareBytesEqual(Codes(Key(prefix, a)), Codes(Key(prefix, b)));
  }
}
