/** The proof-of-work stamp on a deposit: counting leading zero bits, grinding a nonce, validation. */
module MailboxStamp {
  import opened Prelude
  import opened BigEndian
  import opened Difficulty
  import opened MailboxRules
  import R = MailboxRuns

  const POW_LEADING_ZERO_BITS: nat := 20
  const MAX_CLOCK_DRIFT_SECS: nat := 2 * 60 * 60
  const MAX_ENVELOPE_BYTES: nat := 64 * 1024

  datatype MailboxError = EnvelopeSize | ClockDrift | StampTooWeak

  /** The zero bits above a byte's highest one; eight for zero. */
  function ByteZeroBits(b: byte): (z: nat)
    ensures z <= 8
  {
    if b >= 128 then 0 else if b >= 64 then 1 else if b >= 32 then 2 else if b >= 16 then 3
    else if b >= 8 then 4 else if b >= 4 then 5 else if b >= 2 then 6 else if b >= 1 then 7 else 8
  }

  function LeadingZeroBits(s: Bytes): nat {
    if |s| == 0 then 0
    else if s[0] == 0 then 8 + LeadingZeroBits(s[1..])
    else ByteZeroBits(s[0])
  }

  lemma {:induction false} Pow2OfBytes(n: nat)
    ensures Pow2(8 * n) == Pow256(n)
  {
    if n > 0 {
      Pow2OfBytes(n - 1);
      Pow2Sums(8, 8 * (n - 1));
      PowEight();
    }
  }

  lemma {:induction false} PowEight()
    ensures Pow2(0) == 1 && Pow2(1) == 2 && Pow2(2) == 4 && Pow2(3) == 8 && Pow2(4) == 16 && Pow2(5) == 32
         && Pow2(6) == 64 && Pow2(7) == 128 && Pow2(8) == 256
  {
    assert Pow2(1) == 2 * Pow2(0);
    assert Pow2(2) == 2 * Pow2(1);
    assert Pow2(3) == 2 * Pow2(2);
    assert Pow2(4) == 2 * Pow2(3);
    assert Pow2(5) == 2 * Pow2(4);
    assert Pow2(6) == 2 * Pow2(5);
    assert Pow2(7) == 2 * Pow2(6);
    assert Pow2(8) == 2 * Pow2(7);
  }

  lemma {:induction false} Pow2Monotone(m: nat, n: nat)
    requires m <= n
    ensures Pow2(m) <= Pow2(n)
  {
    Pow2Sums(m, n - m);
    assert Pow2(m) * 1 <= Pow2(m) * Pow2(n - m);
  }

  lemma {:induction false} ByteZeroBitsMeaning(b: byte, k: nat)
    requires k <= 8
    ensures ByteZeroBits(b) >= k <==> b < Pow2(8 - k)
  {
    PowEight();
  }

  /** At least `k` leading zero bits means the value is below two to the rest. */
  lemma {:induction false} ZeroBitsBoundValue(s: Bytes, k: nat)
    requires k <= 8 * |s|
    ensures LeadingZeroBits(s) >= k <==> Value(s) < Pow2(8 * |s| - k)
    decreases |s|
  {
    hide Pow2, Pow256, Value;
    PowEight();
    if |s| > 0 {
      var rest, p := Value(s[1..]), Pow256(|s| - 1);
      ValueHead(s);
      ValueBound(s[1..]);
      Pow2OfBytes(|s| - 1);
      if k > 8 {
        Pow2Monotone(8 * |s| - k, 8 * (|s| - 1));
        if s[0] == 0 {
          ZeroBitsBoundValue(s[1..], k - 8);
        } else {
          assert s[0] * p >= p by { AtLeastOnce(s[0], p); }
        }
      } else {
        ByteZeroBitsMeaning(s[0], k);
        Pow2Sums(8 - k, 8 * (|s| - 1));
        DigitsDecide(s[0], Pow2(8 - k), p, rest, 0);
        assert Pow2(8 * |s| - k) == Pow2(8 - k) * p;
      }
    } else {
      ValueBound(s);
      Pow2OfBytes(0);
    }
  }

  /** Counts whole zero bytes, then the zero bits of the first other byte. */
  method CountLeadingZeroBits(hash: Bytes) returns (count: nat)
    ensures count == LeadingZeroBits(hash)
  {
    count := 0;
    assert hash[0..] == hash;
    for i := 0 to |hash|
      invariant LeadingZeroBits(hash) == count + LeadingZeroBits(hash[i..])
    {
      assert hash[i..][1..] == hash[i + 1..];
      if hash[i] == 0 {
        count := count + 8;
        continue;
      }
      count := count + ByteZeroBits(hash[i]);
      return;
    }
  }

  predicate MeetsPow(digest: Digest, x: Deposit) { LeadingZeroBits(digest(x)) >= POW_LEADING_ZERO_BITS }

  /** Grinds nonces upward from zero to the least that meets the difficulty; none if no nonce does, where the program never returns. */
  method MineStamp(digest: Digest, tag: Tag, envelope: Bytes, depositedAt: Time) returns (r: Option<Time>)
    ensures r.Some? ==> MeetsPow(digest, Deposit(tag, envelope, depositedAt, r.value))
    ensures forall n: Time :: (r.Some? ==> n < r.value) ==> !MeetsPow(digest, Deposit(tag, envelope, depositedAt, n))
  {
    var nonce := 0;
    while nonce < U64
      invariant nonce <= U64
      invariant forall n: Time :: n < nonce ==> !MeetsPow(digest, Deposit(tag, envelope, depositedAt, n))
    {
      var zeros := CountLeadingZeroBits(digest(Deposit(tag, envelope, depositedAt, nonce)));
      if zeros >= POW_LEADING_ZERO_BITS {
        return Some(nonce);
      }
      nonce := nonce + 1;
    }
    r := None;
  }

  function AbsDiff(a: nat, b: nat): nat { if a <= b then b - a else a - b }

  /** The checks a storing node makes, in order. */
  function Validate(digest: Digest, x: Deposit, now: nat): Result<(), MailboxError> {
    if |x.envelope| == 0 || |x.envelope| > MAX_ENVELOPE_BYTES then Err(EnvelopeSize)
    else if AbsDiff(x.depositedAt, now) > MAX_CLOCK_DRIFT_SECS then Err(ClockDrift)
    else if !MeetsPow(digest, x) then Err(StampTooWeak)
    else Ok(())
  }

  /** A deposit passes exactly if its size and time are in bounds and its digest, as an integer, is below 2^236. */
  lemma {:induction false} ValidExactly(digest: Digest, x: Deposit, now: nat)
    ensures Validate(digest, x, now).Ok? <==>
              && 0 < |x.envelope| <= 65_536
              && now - 7_200 <= x.depositedAt <= now + 7_200
              && Value(digest(x)) < Pow2(236)
    ensures Validate(digest, x, now) == Err(EnvelopeSize) <==> !(0 < |x.envelope| <= 65_536)
    ensures Validate(digest, x, now) == Err(ClockDrift) <==>
              0 < |x.envelope| <= 65_536 && !(now - 7_200 <= x.depositedAt <= now + 7_200)
  {
    ZeroBitsBoundValue(digest(x), POW_LEADING_ZERO_BITS);
  }

  /** A run of the cache whose deposits, both stamped and in time, meet every hypothesis of its theorems. */
  lemma {:induction false} ValidDepositsRun() returns (digest: Digest, x: Deposit, y: Deposit, ops: seq<R.Op>)
    ensures ops == [R.Store(x), R.Store(y), R.Deliver(DepositKey(digest, x))] && x != y
    ensures Validate(digest, x, 1) == Ok(()) && Validate(digest, y, 1) == Ok(())
    ensures NoCollision(digest, R.Offered(ops)) && Inv(digest, R.Offered(ops), R.EMPTY)
    ensures R.Play(digest, R.EMPTY, ops).total == StoredBytes(R.Play(digest, R.EMPTY, ops).deposits) + 40
  {
    hide R.Play, Inv, NoCollision, R.Offered, Validate, StoredBytes;
    digest, x, y, ops := R.StoredTwiceDeliveredOnce();
    SmallNonceIsStamp(digest, x);
    SmallNonceIsStamp(digest, y);
  }

  lemma {:induction false} SmallNonceIsStamp(digest: Digest, x: Deposit)
    requires digest(x) == ToBytes(x.nonce, DIGEST_LEN) && x.nonce <= 1 && |x.envelope| == 1 && x.depositedAt <= 1
    ensures Validate(digest, x, 1) == Ok(())
  {
    hide Pow2, ToBytes, Value, MeetsPow, Pow256;
    PowAdds(2, 30);
    TwoBytes();
    AtLeastOnce(Pow256(30), 0x1_0000);
    ValueOfToBytes(x.nonce, DIGEST_LEN);
    Pow2Monotone(1, 236);
    PowEight();
    ValidExactly(digest, x, 1);
  }
}
