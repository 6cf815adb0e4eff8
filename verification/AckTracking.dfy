/** Sequence numbers and the ack bitfield of one peer. */
module AckTracking {
  import opened Arithmetic
  import opened Bits
  import opened Bytes

  datatype Tracker = Tracker(local: int, remote: int, bits: nat)

  const INITIAL := Tracker(0, 0, 0)

  function Next(t: Tracker): Tracker {
    t.(local := (t.local + 1) % U32)
  }

  function Delta(remote: int, received: int): nat {
    (received - remote) % U32
  }

  predicate Accepts(remote: int, received: int) {
    1 <= Delta(remote, received) <= 0x7FFF_FFFF
  }

  function Update(t: Tracker, received: int): Tracker {
    if !Accepts(t.remote, received) then t
    else Tracker(t.local, received, SetLowBit(ShiftLeft(t.bits, Delta(t.remote, received))))
  }

  /** Serial number comparison with SERIAL_BITS = 32, section 3.2 of RFC 1982. */
  predicate SerialLess(i1: nat, i2: nat) {
    || (i1 < i2 && i2 - i1 < 0x8000_0000)
    || (i1 > i2 && i1 - i2 > 0x8000_0000)
  }

  lemma AcceptIsSerialLess(remote: nat, received: nat)
    requires remote < U32 && received < U32
    ensures Accepts(remote, received) <==> SerialLess(remote, received)
  {
    if received < remote {
      ModIs(received - remote, U32, -1, received - remote + U32);
    }
  }

  // ---------- runs over received wire numbers ----------

  function Run(xs: seq<int>): Tracker {
    if xs == [] then INITIAL else Update(Run(xs[..|xs| - 1]), xs[|xs| - 1])
  }

  /** The remote sequence number with its wrap-arounds undone. */
  function Unwrapped(xs: seq<int>): nat {
    if xs == [] then 0
    else
      var before := xs[..|xs| - 1];
      var remote := Run(before).remote;
      Unwrapped(before) + if Accepts(remote, xs[|xs| - 1]) then Delta(remote, xs[|xs| - 1]) else 0
  }

  /** The unwrapped numbers that were accepted as an advance. */
  function Advances(xs: seq<int>): set<nat> {
    if xs == [] then {}
    else
      var before := xs[..|xs| - 1];
      Advances(before) + if Accepts(Run(before).remote, xs[|xs| - 1]) then {Unwrapped(xs)} else {}
  }

  lemma {:induction false} AdvancesBelow(xs: seq<int>, n: nat)
    requires n in Advances(xs)
    ensures 0 < n <= Unwrapped(xs)
  {
    var before := xs[..|xs| - 1];
    if n in Advances(before) { AdvancesBelow(before, n); }
  }

  /** Bit i is set exactly when the number i below the current highest was an advance. */
  lemma {:induction false} BitsRecordAdvances(xs: seq<int>, i: nat)
    ensures Bit(Run(xs).bits, i) <==> i <= Unwrapped(xs) && Unwrapped(xs) - i in Advances(xs)
  {
    if xs == [] {
      ZeroHasNoBits(i);
    } else {
      var before, x := xs[..|xs| - 1], xs[|xs| - 1];
      var t := Run(before);
      if Accepts(t.remote, x) {
        var d := Delta(t.remote, x);
        SetLowBitBit(ShiftLeft(t.bits, d), i);
        ShiftLeftBit(t.bits, d, i);
        if i >= d {
          BitsRecordAdvances(before, i - d);
        } else if 0 < i <= Unwrapped(xs) && Unwrapped(xs) - i in Advances(before) {
          AdvancesBelow(before, Unwrapped(xs) - i);
        }
      } else {
        BitsRecordAdvances(before, i);
      }
    }
  }

  lemma DeltaCarriesOver(unwrapped: nat, remote: int, received: int)
    requires remote % U32 == unwrapped % U32
    ensures (unwrapped + Delta(remote, received)) % U32 == received % U32
  {
    var m := 0x1_0000_0000;
    var a, b, c, q := unwrapped / m, remote / m, received / m, (received - remote) / m;
    assert unwrapped == m * a + unwrapped % m && remote == m * b + remote % m && received == m * c + received % m;
    assert received - remote == m * q + Delta(remote, received);
    ModIs(unwrapped + Delta(remote, received), m, a - b - q + c, received % m);
  }

  lemma {:induction false} RemoteIsUnwrappedModulo(xs: seq<int>)
    ensures Run(xs).remote % U32 == Unwrapped(xs) % U32
  {
    if xs != [] {
      var before, x := xs[..|xs| - 1], xs[|xs| - 1];
      RemoteIsUnwrappedModulo(before);
      DeltaCarriesOver(Unwrapped(before), Run(before).remote, x);
    }
  }

  // ---------- the 32-bit view of the unbounded bitfield ----------

  /** The bitfield a tracker would hold that masks to 32 bits at every step. */
  function MaskedBits(xs: seq<int>): nat {
    if xs == [] then 0
    else
      var before, x := xs[..|xs| - 1], xs[|xs| - 1];
      var remote := Run(before).remote;
      if !Accepts(remote, x) then MaskedBits(before)
      else SetLowBit(ShiftLeft(MaskedBits(before), Delta(remote, x))) % U32
  }

  lemma DoubleModulo(n: nat)
    ensures (2 * n) % U32 == (2 * (n % U32)) % U32
  {
    var q, r := n / 0x1_0000_0000, n % 0x1_0000_0000;
    assert n == 0x1_0000_0000 * q + r;
    if r < 0x8000_0000 {
      ModIs(2 * n, 0x1_0000_0000, 2 * q, 2 * r);
    } else {
      ModIs(2 * n, 0x1_0000_0000, 2 * q + 1, 2 * r - 0x1_0000_0000);
      ModIs(2 * r, 0x1_0000_0000, 1, 2 * r - 0x1_0000_0000);
    }
  }

  lemma {:induction false} ShiftModulo(n: nat, d: nat)
    ensures ShiftLeft(n, d) % U32 == ShiftLeft(n % U32, d) % U32
  {
    if d > 0 {
      ShiftModulo(n, d - 1);
      DoubleModulo(ShiftLeft(n, d - 1));
      DoubleModulo(ShiftLeft(n % U32, d - 1));
    }
  }

  lemma OrModulo(n: nat)
    ensures SetLowBit(n) % U32 == SetLowBit(n % U32) % U32
  {
    var q, r := n / 0x1_0000_0000, n % 0x1_0000_0000;
    assert n == 0x1_0000_0000 * q + r;
    assert n % 2 == r % 2;
    if r % 2 == 0 {
      assert r + 1 < 0x1_0000_0000;
      ModIs(n + 1, 0x1_0000_0000, q, r + 1);
    }
  }

  /** Masking once, when the header is built, equals masking at every step. */
  lemma {:induction false} MaskOnceIsMaskAlways(xs: seq<int>)
    ensures Run(xs).bits % U32 == MaskedBits(xs)
  {
    if xs != [] {
      var before, x := xs[..|xs| - 1], xs[|xs| - 1];
      MaskOnceIsMaskAlways(before);
      var d := Delta(Run(before).remote, x);
      ShiftModulo(Run(before).bits, d);
      OrModulo(ShiftLeft(Run(before).bits, d));
      OrModulo(ShiftLeft(MaskedBits(before), d));
    }
  }

  // ---------- true sequence numbers of the sender ----------

  function Wire(ts: seq<nat>): seq<int> {
    seq(|ts|, k requires 0 <= k < |ts| => ts[k] % U32)
  }

  function Max(ts: seq<nat>): nat {
    if ts == [] then 0
    else if ts[|ts| - 1] > Max(ts[..|ts| - 1]) then ts[|ts| - 1] else Max(ts[..|ts| - 1])
  }

  predicate NearBy(highest: nat, t: nat) {
    -0x8000_0000 <= t - highest < 0x8000_0000
  }

  ghost predicate InWindow(ts: seq<nat>) {
    forall k | 0 <= k < |ts| :: NearBy(Max(ts[..k]), ts[k])
  }

  /** The k-th arrival was higher than every arrival before it (and than 0). */
  predicate NewHighest(ts: seq<nat>, k: nat)
    requires k < |ts|
  {
    ts[k] > Max(ts[..k])
  }

  ghost predicate IsNewHighest(ts: seq<nat>, n: int) {
    exists k | 0 <= k < |ts| :: ts[k] == n && NewHighest(ts, k)
  }

  lemma SplitNewHighest(ts: seq<nat>, n: int)
    requires ts != []
    ensures IsNewHighest(ts, n) <==>
              IsNewHighest(ts[..|ts| - 1], n) || (NewHighest(ts, |ts| - 1) && n == ts[|ts| - 1])
  {
    var before := ts[..|ts| - 1];
    forall k | 0 <= k < |before| ensures NewHighest(before, k) <==> NewHighest(ts, k) {
      assert before[..k] == ts[..k];
    }
    if IsNewHighest(before, n) {
      var k :| 0 <= k < |before| && before[k] == n && NewHighest(before, k);
      assert ts[k] == n && NewHighest(ts, k);
    }
    if IsNewHighest(ts, n) {
      var k :| 0 <= k < |ts| && ts[k] == n && NewHighest(ts, k);
      if k < |before| { assert before[k] == n && NewHighest(before, k); }
    }
  }

  lemma DeltaIsDistance(highest: nat, n: nat)
    requires -U32 < n - highest < U32
    ensures Delta(highest % U32, n % U32) == if n >= highest then n - highest else n - highest + U32
    ensures n % U32 == highest % U32 <==> n == highest
  {
    var m := 0x1_0000_0000;
    assert highest == m * (highest / m) + highest % m;
    assert n == m * (n / m) + n % m;
    assert -1 <= n / m - highest / m <= 1;
  }

  /** Within one wrap of the highest, the window is exactly what one step needs. */
  lemma StepNeedsWindow(t: Tracker, highest: nat, n: nat)
    requires t.remote == highest % U32
    requires -U32 < n - highest < U32
    ensures Update(t, n % U32).remote == (if n > highest then n else highest) % U32 <==> NearBy(highest, n)
    ensures NearBy(highest, n) ==>
              && (Accepts(t.remote, n % U32) <==> n > highest)
              && (n > highest ==> Delta(t.remote, n % U32) == n - highest)
  {
    DeltaIsDistance(highest, n);
  }

  lemma {:induction false} TracksMaximum(ts: seq<nat>)
    requires InWindow(ts)
    ensures Run(Wire(ts)).remote == Max(ts) % U32
    ensures Unwrapped(Wire(ts)) == Max(ts)
    ensures forall n :: n in Advances(Wire(ts)) <==> IsNewHighest(ts, n)
  {
    if ts != [] {
      var last := |ts| - 1;
      var before := ts[..last];
      assert InWindow(before) by {
        forall k | 0 <= k < last ensures NearBy(Max(before[..k]), before[k]) {
          assert before[..k] == ts[..k];
        }
      }
      TracksMaximum(before);
      assert Wire(ts)[..last] == Wire(before);
      StepNeedsWindow(Run(Wire(before)), Max(before), ts[last]);
      assert NewHighest(ts, last) <==> Accepts(Run(Wire(before)).remote, ts[last] % U32);
      forall n ensures IsNewHighest(ts, n) <==> IsNewHighest(before, n) || (NewHighest(ts, last) && n == ts[last]) {
        SplitNewHighest(ts, n);
      }
    }
  }

  /** What the sender of the acknowledged packets can read off a header: the ack is the highest
      number received, and bit i says whether the number i below it arrived as a new highest. */
  lemma AckFieldIsSound(ts: seq<nat>, i: nat)
    requires InWindow(ts) && i < 32
    ensures Run(Wire(ts)).remote == Max(ts) % U32
    ensures Bit(Run(Wire(ts)).bits % U32, i) <==>
              exists k | 0 <= k < |ts| :: ts[k] == Max(ts) - i && NewHighest(ts, k)
  {
    TracksMaximum(ts);
    Pow2Of32();
    LowBits(Run(Wire(ts)).bits, 32, i);
    BitsRecordAdvances(Wire(ts), i);
  }

  lemma {:induction false} AllZero(ts: seq<nat>)
    requires forall k | 0 <= k < |ts| :: ts[k] == 0
    ensures Run(Wire(ts)) == INITIAL
  {
    if ts != [] {
      AllZero(ts[..|ts| - 1]);
      assert Wire(ts)[..|ts| - 1] == Wire(ts[..|ts| - 1]);
    }
  }

  /** A first packet numbered 0 is never recorded. */
  lemma FirstZeroIsLost(ts: seq<nat>, i: nat)
    requires forall k | 0 <= k < |ts| :: ts[k] == 0
    ensures !Bit(Run(Wire(ts)).bits, i)
  {
    AllZero(ts);
    ZeroHasNoBits(i);
  }

  // ---------- the object ----------

  class AckTracker {
    var localSequence: int
    var remoteSequence: int
    var ackBitfield: nat

    function View(): Tracker
      reads this
    {
      Tracker(localSequence, remoteSequence, ackBitfield)
    }

    constructor ()
      ensures View() == INITIAL
    {
      localSequence, remoteSequence, ackBitfield := 0, 0, 0;
    }

    method NextSequence() returns (sequence: int)
      modifies this
      ensures sequence == old(localSequence)
      ensures View() == Next(old(View()))
    {
      sequence := localSequence;
      localSequence := (localSequence + 1) % U32;
    }

    method UpdateRemote(received: int)
      modifies this
      ensures View() == Update(old(View()), received)
    {
      var delta := (received - remoteSequence) % U32;
      if delta == 0 || delta > 0x7FFF_FFFF {
        return;
      }
      ackBitfield := SetLowBit(ShiftLeft(ackBitfield, delta));
      remoteSequence := received;
    }
  }
}
