/** Tick arithmetic: counters of TickType_t against times that never wrap. */
module Clock {

  /** The number of values of TickType_t. */
  type Modulus = n: nat | 2 <= n witness 2

  /** The value of `x` in a TickType_t. */
  function Wrap(x: nat, ticks: Modulus): (r: nat)
    ensures r < ticks
  {
    x % ticks
  }

  /** The unbounded tick at which epoch `k` of the tick count begins. */
  function Epoch(k: nat, ticks: Modulus): nat { k * ticks }

  /** How often a counter that stands for `x` has wrapped. */
  function Wraps(x: nat, ticks: Modulus): nat { x / ticks }

  /** Subtraction of two TickType_t values. */
  function Minus(x: nat, y: nat, ticks: Modulus): nat
    requires x < ticks && y < ticks
  {
    if y <= x then x - y else x + ticks - y
  }

  lemma EpochStep(k: nat, ticks: Modulus)
    ensures Epoch(k + 1, ticks) == Epoch(k, ticks) + ticks
  {
  }

  lemma WrapSmall(x: nat, ticks: Modulus)
    requires x < ticks
    ensures Wrap(x, ticks) == x
  {
  }

  lemma WrapParts(x: nat, ticks: Modulus)
    ensures x == Epoch(Wraps(x, ticks), ticks) + Wrap(x, ticks)
  {
  }

  /** The only way to write `x` as some whole epochs and a smaller rest. */
  lemma WrapUnique(x: nat, k: nat, r: nat, ticks: Modulus)
    requires x == Epoch(k, ticks) + r && r < ticks
    ensures Wraps(x, ticks) == k && Wrap(x, ticks) == r
  {
    WrapParts(x, ticks);
    EpochOrder(k, Wraps(x, ticks), ticks);
    EpochOrder(Wraps(x, ticks), k, ticks);
  }

  lemma {:induction false} EpochOrder(j: nat, k: nat, ticks: Modulus)
    ensures j < k ==> Epoch(j, ticks) + ticks <= Epoch(k, ticks)
    decreases k
  {
    if j < k {
      EpochStep(k - 1, ticks);
      EpochOrder(j, k - 1, ticks);
    }
    hide Epoch;
  }

  /** A counter that advances by less than its range wraps at most once. */
  lemma WrapAdd(x: nat, d: nat, ticks: Modulus)
    requires d < ticks
    ensures var late := Wrap(x, ticks) + d >= ticks;
      && Wrap(x + d, ticks) == (if late then Wrap(x, ticks) + d - ticks else Wrap(x, ticks) + d)
      && Wraps(x + d, ticks) == (if late then Wraps(x, ticks) + 1 else Wraps(x, ticks))
  {
    WrapParts(x, ticks);
    EpochStep(Wraps(x, ticks), ticks);
    if Wrap(x, ticks) + d >= ticks {
      WrapUnique(x + d, Wraps(x, ticks) + 1, Wrap(x, ticks) + d - ticks, ticks);
    } else {
      WrapUnique(x + d, Wraps(x, ticks), Wrap(x, ticks) + d, ticks);
    }
  }

  lemma WrapPlus(x: nat, p: nat, ticks: Modulus)
    requires p < ticks
    ensures Wrap(Wrap(x, ticks) + p, ticks) == Wrap(x + p, ticks)
  {
    WrapSmall(Wrap(x, ticks), ticks);
    WrapAdd(x, p, ticks);
    WrapAdd(Wrap(x, ticks), p, ticks);
    hide Wrap, Wraps;
  }

  /** Wrapped subtraction is exact between times less than one range apart. */
  lemma MinusIsExact(x: nat, y: nat, ticks: Modulus)
    requires y <= x < y + ticks
    ensures Minus(Wrap(x, ticks), Wrap(y, ticks), ticks) == x - y
    ensures Wrap(x, ticks) < Wrap(y, ticks) <==> Wraps(x, ticks) == Wraps(y, ticks) + 1
    ensures Wrap(y, ticks) <= Wrap(x, ticks) <==> Wraps(x, ticks) == Wraps(y, ticks)
  {
    WrapAdd(y, x - y, ticks);
  }

  lemma EpochSum(j: nat, k: nat, ticks: Modulus)
    ensures Epoch(j, ticks) + Epoch(k, ticks) == Epoch(j + k, ticks)
  {
  }

  /** Wrapped subtraction gives the distance, wrapped. */
  lemma MinusIsWrapped(x: nat, y: nat, ticks: Modulus)
    requires y <= x
    ensures Minus(Wrap(x, ticks), Wrap(y, ticks), ticks) == Wrap(x - y, ticks)
  {
    var j, k := Wraps(x, ticks), Wraps(y, ticks);
    WrapParts(x, ticks);
    WrapParts(y, ticks);
    EpochOrder(j, k, ticks);
    var d := if Wrap(y, ticks) <= Wrap(x, ticks) then j - k else j - k - 1;
    EpochSum(d, k, ticks);
    EpochStep(d + k, ticks);
    WrapUnique(x - y, d, Minus(Wrap(x, ticks), Wrap(y, ticks), ticks), ticks);
    hide Wrap, Wraps, Epoch;
  }

  /** Subtraction the other way round. */
  lemma MinusIsOpposite(x: nat, y: nat, ticks: Modulus)
    requires x < ticks && y < ticks
    ensures Minus(x, y, ticks) == if x == y then 0 else ticks - Minus(y, x, ticks)
  {
  }
}
