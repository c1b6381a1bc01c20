/**
 * The billing store: a balance per API key, adjusted with saturating
 * arithmetic and charged by token usage, and the 8-byte little-endian
 * encoding balances are persisted in. The persist thread, its batching and
 * the lock are not modelled; a balance update is one step on a map.
 */
module Billing {
  import opened Common

  datatype Billing = Billing(balances: map<string, i64>)

  /** `create_key`: inserts only a key that is not there yet, and says whether it did. */
  function CreateKey(b: Billing, key: string, balance: i64): (r: (Billing, bool))
    ensures r.1 <==> key !in b.balances
    ensures !r.1 ==> r.0 == b
    ensures r.1 ==> key in r.0.balances && r.0.balances[key] == balance
    ensures r.1 ==> forall k :: k != key ==> (k in r.0.balances <==> k in b.balances)
    ensures forall k :: k in b.balances ==> k in r.0.balances && r.0.balances[k] == b.balances[k]
  {
    if key in b.balances then (b, false)
    else (Billing(b.balances[key := balance]), true)
  }

  /** `get_balance`. */
  function GetBalance(b: Billing, key: string): (r: Option<i64>)
    ensures r.None? <==> key !in b.balances
    ensures r.Some? ==> r.value == b.balances[key]
  {
    if key in b.balances then Some(b.balances[key]) else None
  }

  /** `adjust_balance`: the stored balance plus `delta`, saturating at the `i64` bounds. */
  function AdjustBalance(b: Billing, key: string, delta: i64): (r: (Billing, Option<i64>))
    ensures r.1.None? <==> key !in b.balances
    ensures r.1.None? ==> r.0 == b
    ensures r.1.Some? ==> r.1 == GetBalance(r.0, key)
    ensures r.1.Some? && I64_MIN <= b.balances[key] + delta <= I64_MAX ==>
      r.1.value == b.balances[key] + delta
    ensures r.1.Some? && b.balances[key] + delta > I64_MAX ==> r.1.value == I64_MAX
    ensures r.1.Some? && b.balances[key] + delta < I64_MIN ==> r.1.value == I64_MIN
    ensures r.0.balances.Keys == b.balances.Keys
    ensures forall k :: k in b.balances && k != key ==> r.0.balances[k] == b.balances[k]
  {
    match GetBalance(b, key)
    case None => (b, None)
    case Some(cur) =>
      var nb := SaturatingAddI64(cur, delta);
      (Billing(b.balances[key := nb]), Some(nb))
  }

  /**
   * `apply_usage`: charges `tokens` against the key. A token count beyond
   * `i64::MAX` is refused; zero tokens only reads the balance.
   */
  function ApplyUsage(b: Billing, key: string, tokens: u64): (r: (Billing, Option<i64>))
    ensures tokens > I64_MAX ==> r == (b, None)
    ensures tokens == 0 ==> r == (b, GetBalance(b, key))
    ensures 0 < tokens <= I64_MAX ==> r == AdjustBalance(b, key, -(tokens as int))
  {
    if tokens > I64_MAX then (b, None)
    else if tokens == 0 then (b, GetBalance(b, key))
    else AdjustBalance(b, key, -(tokens as int))
  }

  /** A charge never raises a balance, and is exact until the balance would pass `i64::MIN`. */
  lemma ApplyUsageCharges(b: Billing, key: string, tokens: u64)
    requires key in b.balances && tokens <= I64_MAX
    ensures ApplyUsage(b, key, tokens).1.Some?
    ensures ApplyUsage(b, key, tokens).1.value <= b.balances[key]
    ensures b.balances[key] - tokens >= I64_MIN ==>
      ApplyUsage(b, key, tokens).1.value == b.balances[key] - tokens
  {
  }

  /** A key created with a balance reads back that balance. */
  lemma CreateThenGet(b: Billing, key: string, balance: i64)
    ensures var (b', created) := CreateKey(b, key, balance);
      GetBalance(b', key) == if created then Some(balance) else GetBalance(b, key)
  {
  }

  // ---- the persisted form of a balance ----

  function Pow256(n: nat): (r: nat)
    ensures r >= 1
  {
    if n == 0 then 1 else 256 * Pow256(n - 1)
  }

  /** The low `n` bytes of `u`, least significant first. */
  function LeBytes(u: nat, n: nat): (r: seq<byte>)
    ensures |r| == n
  {
    if n == 0 then [] else [u % 256] + LeBytes(u / 256, n - 1)
  }

  /** The unsigned number little-endian bytes denote. */
  function FromLe(bs: seq<byte>): (r: nat)
    ensures r < Pow256(|bs|)
  {
    if |bs| == 0 then 0 else bs[0] + 256 * FromLe(bs[1..])
  }

  lemma {:induction false} FromLeBytes(u: nat, n: nat)
    requires u < Pow256(n)
    ensures FromLe(LeBytes(u, n)) == u
  {
    if n > 0 {
      FromLeBytes(u / 256, n - 1);
      assert LeBytes(u, n)[1..] == LeBytes(u / 256, n - 1);
    }
  }

  lemma {:induction false} LeBytesFrom(bs: seq<byte>)
    ensures LeBytes(FromLe(bs), |bs|) == bs
  {
    if |bs| > 0 {
      LeBytesFrom(bs[1..]);
      assert FromLe(bs) % 256 == bs[0];
      assert FromLe(bs) / 256 == FromLe(bs[1..]);
      assert bs == [bs[0]] + bs[1..];
    }
  }

  lemma Pow256Eight()
    ensures Pow256(8) == U64_MODULUS
  {
  }

  /** `i64::to_le_bytes`: two's complement, least significant byte first. */
  function EncodeBalance(v: i64): (r: seq<byte>)
    ensures |r| == 8
  {
    LeBytes(if v < 0 then v + U64_MODULUS else v, 8)
  }

  /** `decode_balance`: `i64::from_le_bytes` on exactly eight bytes, nothing otherwise. */
  function DecodeBalance(bs: seq<byte>): (r: Option<i64>)
    ensures r.Some? <==> |bs| == 8
  {
    if |bs| != 8 then None
    else
      Pow256Eight();
      var u := FromLe(bs);
      Some(if u > I64_MAX then u - U64_MODULUS else u)
  }

  /** Every balance survives a write and a read of its persisted bytes. */
  lemma DecodeEncode(v: i64)
    ensures DecodeBalance(EncodeBalance(v)) == Some(v)
  {
    Pow256Eight();
    FromLeBytes(if v < 0 then v + U64_MODULUS else v, 8);
  }

  /** Every 8-byte record is the encoding of the balance it decodes to. */
  lemma EncodeDecode(bs: seq<byte>)
    requires |bs| == 8
    ensures EncodeBalance(DecodeBalance(bs).value) == bs
  {
    Pow256Eight();
    LeBytesFrom(bs);
  }

  /** The balances `BillingStore::new` loads from the billing tree: entries that decode. */
  function Load(tree: map<string, seq<byte>>): (b: Billing)
    ensures forall k :: k in b.balances <==> k in tree && |tree[k]| == 8
    ensures forall k :: k in b.balances ==> DecodeBalance(tree[k]) == Some(b.balances[k])
  {
    Billing(map k | k in tree && |tree[k]| == 8 :: DecodeBalance(tree[k]).value)
  }

  /** The billing tree once every balance is flushed (`flush_pending`). */
  function Persist(b: Billing): (tree: map<string, seq<byte>>)
    ensures tree.Keys == b.balances.Keys
  {
    map k | k in b.balances :: EncodeBalance(b.balances[k])
  }

  /** Persisting and reloading gives back the same balances. */
  lemma LoadPersist(b: Billing)
    ensures Load(Persist(b)) == b
  {
    forall k | k in b.balances ensures DecodeBalance(EncodeBalance(b.balances[k])) == Some(b.balances[k]) {
      DecodeEncode(b.balances[k]);
    }
    assert Load(Persist(b)).balances == b.balances;
  }
}
