/** What finishing a stopped run is priced at (internal/core/budget.go, internal/web/runs.go). Byte counts are
    int64 there: sums and products that may leave its range are wrapped here as they are there. */
module TopUps {
  import opened Int64

  const MIB := 1048576
  const BYTES_PER_FILE := 150 * MIB
  const MAX_RUN_BYTES := 2048 * MIB

  function Wrapped(x: int): int {
    var low := x % TWO_TO_64;
    if low < TWO_TO_63 then low else low - TWO_TO_64
  }

  /** Go's division, which rounds toward zero. */
  function Quotient(x: int, y: int): int
    requires y > 0
  {
    if x >= 0 then x / y else -(-x / y)
  }

  function DefaultBytes(files: int): int {
    var bytes := Wrapped((if files < 1 then 1 else files) * BYTES_PER_FILE);
    if bytes > MAX_RUN_BYTES then MAX_RUN_BYTES else bytes
  }

  function RoundedUp(want: int): int { Quotient(Wrapped(want + MIB - 1), MIB) * MIB }

  function Wanted(remaining: int, short: int, captured: int, spent: int): int {
    var floor := DefaultBytes(short);
    if captured > 0 && spent > 0 && Quotient(Wrapped(spent * (remaining + 1)), captured) > floor
    then Quotient(Wrapped(spent * (remaining + 1)), captured) else floor
  }

  /** Rounded up to a whole MiB and capped. */
  function Offer(want: int): int { if RoundedUp(want) > MAX_RUN_BYTES then MAX_RUN_BYTES else RoundedUp(want) }

  function TopUpBytes(remaining: int, short: int, captured: int, spent: int): int {
    if remaining <= 0 || short <= 0 then 0 else Offer(Wanted(remaining, short, captured, spent))
  }

  function TopUpFloor(remaining: int, captured: int, spent: int): int {
    if remaining <= 0 || captured <= 0 || spent <= 0 then 0
    else Quotient(Wrapped(spent * remaining), captured)
  }

  // ---- arithmetic ----

  lemma WrappedWithin(x: int)
    ensures -TWO_TO_63 <= Wrapped(x) < TWO_TO_63
    ensures Wrapped(x) == x <==> -TWO_TO_63 <= x < TWO_TO_63
  {
  }

  lemma ProductsClimb(a: int, b: int, x: int, y: int)
    requires 0 <= a <= b && 0 <= x <= y
    ensures 0 <= a * x <= a * y <= b * y
  {
  }

  lemma FitsBelow(q: int, x: int, y: int)
    requires 0 <= q && q * y <= x && 0 < y
    ensures q <= x / y <= x
  {
    var r := x / y;
    assert x < (r + 1) * y;
    if q > r {
      ProductsClimb(r + 1, q, y, y);
      assert false;
    }
    assert r <= r * y by { ProductsClimb(r, r, 1, y); }
  }

  lemma QuotientClimbs(a: int, b: int, y: int)
    requires 0 <= a <= b && y > 0
    ensures 0 <= Quotient(a, y) <= Quotient(b, y) <= b
  {
    FitsBelow(a / y, b, y);
  }

  lemma RoundingUp(want: int)
    requires 0 <= want && want + MIB - 1 < TWO_TO_63
    ensures want <= RoundedUp(want) < want + MIB && RoundedUp(want) % MIB == 0
  {
    WrappedWithin(want + MIB - 1);
  }

  lemma RoundingClimbs(a: int, b: int)
    requires 0 <= a <= b && b + MIB - 1 < TWO_TO_63
    ensures RoundedUp(a) <= RoundedUp(b)
  {
    WrappedWithin(a + MIB - 1);
    WrappedWithin(b + MIB - 1);
  }

  /** The floor a run gets with no raise: 150 MiB a file up to 2 GiB, for any count of files whose product fits. */
  lemma DefaultWithin(files: int)
    requires files * BYTES_PER_FILE < TWO_TO_63
    ensures BYTES_PER_FILE <= DefaultBytes(files) <= MAX_RUN_BYTES && DefaultBytes(files) % MIB == 0
    ensures DefaultBytes(files) == MAX_RUN_BYTES <==> files * BYTES_PER_FILE >= MAX_RUN_BYTES
  {
    WrappedWithin((if files < 1 then 1 else files) * BYTES_PER_FILE);
  }

  /** The product the price is measured by does not leave int64. */
  predicate Fits(remaining: int, short: int, captured: int, spent: int) {
    short * BYTES_PER_FILE < TWO_TO_63 && (captured > 0 && spent > 0 ==> spent * (remaining + 1) < TWO_TO_63)
  }

  lemma WantedIs(remaining: int, short: int, captured: int, spent: int)
    requires remaining > 0 && short > 0 && Fits(remaining, short, captured, spent)
    ensures var want := Wanted(remaining, short, captured, spent);
            DefaultBytes(short) <= want &&
            (captured > 0 && spent > 0 ==> spent * (remaining + 1) / captured <= want) &&
            (want == DefaultBytes(short) ||
             (captured > 0 && spent > 0 && want == spent * (remaining + 1) / captured))
  {
    if captured > 0 && spent > 0 {
      ProductsClimb(spent, spent, 0, remaining + 1);
      WrappedWithin(spent * (remaining + 1));
    }
  }

  /** The last MiB of int64: a price there wraps as it is rounded up. */
  predicate Rounds(remaining: int, short: int, captured: int, spent: int) {
    Wanted(remaining, short, captured, spent) + MIB - 1 < TWO_TO_63
  }

  /** The least that finishing can cost is no more than one point beyond it is measured at. */
  lemma FloorIsCovered(remaining: int, captured: int, spent: int)
    requires remaining > 0 && captured > 0 && spent > 0 && spent * (remaining + 1) < TWO_TO_63
    ensures TopUpFloor(remaining, captured, spent) <= spent * (remaining + 1) / captured
  {
    ProductsClimb(spent, spent, remaining, remaining + 1);
    WrappedWithin(spent * remaining);
    FitsBelow(spent * remaining / captured, spent * (remaining + 1), captured);
  }

  lemma WantedCovers(remaining: int, short: int, captured: int, spent: int)
    requires remaining > 0 && short > 0 && Fits(remaining, short, captured, spent)
    ensures DefaultBytes(short) <= Wanted(remaining, short, captured, spent)
    ensures TopUpFloor(remaining, captured, spent) <= Wanted(remaining, short, captured, spent)
  {
    DefaultWithin(short);
    WantedIs(remaining, short, captured, spent);
    if captured > 0 && spent > 0 { FloorIsCovered(remaining, captured, spent); }
  }

  lemma OfferOf(want: int, base: int, floor: int)
    requires 0 <= base <= want && base <= MAX_RUN_BYTES && floor <= want && want + MIB - 1 < TWO_TO_63
    ensures Offer(want) % MIB == 0 && base <= Offer(want) <= MAX_RUN_BYTES
    ensures Offer(want) == MAX_RUN_BYTES || floor <= Offer(want)
  {
    RoundingUp(want);
  }

  /** The offer is a whole number of MiB, never below what the short files get with no raise and never above
      the run cap; and unless the cap bites it covers the least that finishing can cost. */
  lemma OfferIsSound(remaining: int, short: int, captured: int, spent: int)
    requires remaining > 0 && short > 0
    requires Fits(remaining, short, captured, spent) && Rounds(remaining, short, captured, spent)
    ensures var offer := TopUpBytes(remaining, short, captured, spent);
            offer % MIB == 0 && DefaultBytes(short) <= offer <= MAX_RUN_BYTES &&
            (offer == MAX_RUN_BYTES || TopUpFloor(remaining, captured, spent) <= offer)
  {
    DefaultWithin(short);
    WantedCovers(remaining, short, captured, spent);
    OfferOf(Wanted(remaining, short, captured, spent), DefaultBytes(short), TopUpFloor(remaining, captured, spent));
  }

  /** A figure that would do for an offer: whole MiB, no less than the short files get with no raise, nor than what
      finishing is measured at, the bytes spent a captured point for each point owed and one more. */
  predicate WouldDo(x: int, remaining: int, short: int, captured: int, spent: int) {
    x % 1048576 == 0 && DefaultBytes(short) <= x &&
    (captured > 0 && spent > 0 ==> spent * (remaining + 1) < (x + 1) * captured)
  }

  lemma QuotientBelow(a: int, y: int, x: int)
    requires a >= 0 && y > 0
    ensures Quotient(a, y) <= x <==> a < (x + 1) * y
  {
    var q := a / y;
    assert q * y <= a < (q + 1) * y;
    if q <= x { ProductsAscend(q + 1, x + 1, y); } else { ProductsAscend(x + 1, q, y); }
  }

  lemma ProductsAscend(a: int, b: int, y: int)
    requires a <= b && y > 0
    ensures a * y <= b * y
  {
    assert (b - a) * y >= 0;
    assert b * y == a * y + (b - a) * y;
  }

  lemma WantedIsLeast(remaining: int, short: int, captured: int, spent: int, x: int)
    requires remaining > 0 && short > 0 && Fits(remaining, short, captured, spent)
    ensures Wanted(remaining, short, captured, spent) <= x <==>
              DefaultBytes(short) <= x && (captured > 0 && spent > 0 ==> spent * (remaining + 1) < (x + 1) * captured)
  {
    if captured > 0 && spent > 0 {
      ProductsClimb(spent, spent, 0, remaining + 1);
      WrappedWithin(spent * (remaining + 1));
      QuotientBelow(spent * (remaining + 1), captured, x);
    }
  }

  /** The offer is exactly the least figure that would do, cut down to 2 GiB; and nothing is offered where nothing
      is owed or no file is short. */
  lemma OfferIsTheLeast(remaining: int, short: int, captured: int, spent: int)
    ensures remaining <= 0 || short <= 0 ==> TopUpBytes(remaining, short, captured, spent) == 0
    ensures remaining > 0 && short > 0 && Fits(remaining, short, captured, spent) &&
            Rounds(remaining, short, captured, spent) ==>
              var offer := TopUpBytes(remaining, short, captured, spent);
              offer <= 2147483648 && (offer == 2147483648 || WouldDo(offer, remaining, short, captured, spent)) &&
              forall x :: WouldDo(x, remaining, short, captured, spent) ==> offer <= x
  {
    if remaining > 0 && short > 0 && Fits(remaining, short, captured, spent) &&
       Rounds(remaining, short, captured, spent) {
      var want, offer := Wanted(remaining, short, captured, spent), TopUpBytes(remaining, short, captured, spent);
      WantedBounds(remaining, short, captured, spent);
      RoundingUp(want);
      WantedIsLeast(remaining, short, captured, spent, RoundedUp(want));
      forall x | WouldDo(x, remaining, short, captured, spent) ensures offer <= x {
        WantedIsLeast(remaining, short, captured, spent, x);
        NextWholeMib(want, RoundedUp(want), x);
      }
    }
  }

  lemma NextWholeMib(want: int, up: int, x: int)
    requires want <= up < want + MIB && up % MIB == 0 && x % MIB == 0 && want <= x
    ensures up <= x
  {
  }

  /** With no raise files get 150 MiB each, one at least, up to 2 GiB. */
  lemma DefaultIs(files: int)
    requires files * BYTES_PER_FILE < TWO_TO_63
    ensures DefaultBytes(files) ==
            if files < 1 then 157286400 else if files * 157286400 > 2147483648 then 2147483648 else files * 157286400
  {
    WrappedWithin((if files < 1 then 1 else files) * BYTES_PER_FILE);
  }

  /** The least that finishing can cost is the bytes spent a captured point for each point owed, rounded down. */
  lemma FloorIs(remaining: int, captured: int, spent: int)
    ensures remaining <= 0 || captured <= 0 || spent <= 0 ==> TopUpFloor(remaining, captured, spent) == 0
    ensures remaining > 0 && captured > 0 && spent > 0 && spent * remaining < TWO_TO_63 ==>
              var floor := TopUpFloor(remaining, captured, spent);
              floor * captured <= spent * remaining < (floor + 1) * captured
  {
    if remaining > 0 && captured > 0 && spent > 0 && spent * remaining < TWO_TO_63 {
      ProductsClimb(spent, spent, 0, remaining);
      WrappedWithin(spent * remaining);
      var q := spent * remaining / captured;
      assert q * captured <= spent * remaining < (q + 1) * captured;
    }
  }

  /** Wrapping keeps the low 64 bits, and Go's division the size of the quotient on both sides of zero. */
  lemma WrapsAndTruncates(x: int, y: int)
    requires y > 0
    ensures (x - Wrapped(x)) % TWO_TO_64 == 0 && -TWO_TO_63 <= Wrapped(x) < TWO_TO_63
    ensures Quotient(-x, y) == -Quotient(x, y)
    ensures x >= 0 ==> Quotient(x, y) * y <= x < (Quotient(x, y) + 1) * y
  {
  }

  /** The offer grows with the points still owed and with the bytes spent. */
  lemma OfferClimbs(remaining: int, remaining': int, short: int, captured: int, spent: int, spent': int)
    requires 0 < remaining <= remaining' && short > 0 && 0 <= spent <= spent'
    requires Fits(remaining', short, captured, spent') && Rounds(remaining', short, captured, spent')
    ensures TopUpBytes(remaining, short, captured, spent) <= TopUpBytes(remaining', short, captured, spent')
  {
    DefaultWithin(short);
    if captured > 0 && spent > 0 {
      assert spent * (remaining + 1) <= spent * (remaining' + 1) <= spent' * (remaining' + 1) by {
        ProductsClimb(spent, spent', remaining + 1, remaining' + 1);
      }
      WrappedWithin(spent * (remaining + 1));
      WrappedWithin(spent' * (remaining' + 1));
      QuotientClimbs(spent * (remaining + 1), spent' * (remaining' + 1), captured);
    } else if captured > 0 && spent' > 0 {
      WantedIs(remaining', short, captured, spent');
    }
    RoundingClimbs(Wanted(remaining, short, captured, spent), Wanted(remaining', short, captured, spent'));
  }

  lemma WantedBounds(remaining: int, short: int, captured: int, spent: int)
    requires remaining > 0 && short > 0 && short * BYTES_PER_FILE < TWO_TO_63
    ensures 0 < DefaultBytes(short) <= Wanted(remaining, short, captured, spent) < TWO_TO_63
    ensures Wanted(remaining, short, captured, spent) > MAX_RUN_BYTES ==>
              captured > 0 && spent > 0 && Wrapped(spent * (remaining + 1)) > 0 &&
              Wanted(remaining, short, captured, spent) == Wrapped(spent * (remaining + 1)) / captured
  {
    DefaultWithin(short);
    if captured > 0 && spent > 0 {
      var m := Wrapped(spent * (remaining + 1));
      WrappedWithin(spent * (remaining + 1));
      if m > 0 { QuotientClimbs(m, m, captured); }
    }
  }

  lemma WrapsBelow(want: int)
    requires 0 <= want < TWO_TO_63 && want + MIB - 1 >= TWO_TO_63
    ensures Offer(want) < 0
  {
    assert Wrapped(want + MIB - 1) == want + MIB - 1 - TWO_TO_64;
  }

  /** The offer keeps the floor of a run with no raise exactly when the price stays out of the last MiB of int64,
      which only a receipt of a single captured point can reach. */
  lemma OfferKeepsItsFloorIff(remaining: int, short: int, captured: int, spent: int)
    requires remaining > 0 && short > 0 && short * BYTES_PER_FILE < TWO_TO_63
    ensures DefaultBytes(short) <= TopUpBytes(remaining, short, captured, spent) <==>
            Rounds(remaining, short, captured, spent)
    ensures !Rounds(remaining, short, captured, spent) ==>
              captured == 1 && Wrapped(spent * (remaining + 1)) + MIB - 1 >= TWO_TO_63
  {
    var want := Wanted(remaining, short, captured, spent);
    DefaultWithin(short);
    WantedBounds(remaining, short, captured, spent);
    if Rounds(remaining, short, captured, spent) {
      OfferOf(want, DefaultBytes(short), 0);
    } else {
      WrapsBelow(want);
      WrappedWithin(spent * (remaining + 1));
      if captured >= 2 { Halved(Wrapped(spent * (remaining + 1)), captured); }
    }
  }

  lemma Halved(x: int, y: int)
    requires x >= 0 && y >= 2
    ensures x / y <= x / 2
  {
    var q := x / y;
    assert q * y <= x && 2 * q <= q * y;
  }

  /** The product a price is measured by is exact exactly below two to the 63. */
  lemma MeasureIsExactIff(remaining: int, spent: int)
    requires remaining > 0 && spent > 0
    ensures Wrapped(spent * (remaining + 1)) == spent * (remaining + 1) <==> spent * (remaining + 1) < TWO_TO_63
  {
    ProductsClimb(spent, spent, 0, remaining + 1);
    WrappedWithin(spent * (remaining + 1));
  }

  /** The promise of the offer: it covers the least that finishing can cost, unless the run cap cuts it down. */
  predicate Covers(remaining: int, short: int, captured: int, spent: int) {
    TopUpBytes(remaining, short, captured, spent) == MAX_RUN_BYTES ||
    TopUpFloor(remaining, captured, spent) <= TopUpBytes(remaining, short, captured, spent)
  }

  /** When the promise is kept: always with nothing to measure by; while the measured product fits, when its price
      stays out of the last MiB of int64; and once that product has wrapped, when the floor of a run with no raise
      happens to be enough. */
  predicate KeepsThePromise(remaining: int, short: int, captured: int, spent: int) {
    if captured <= 0 || spent <= 0 then true
    else if spent * (remaining + 1) < TWO_TO_63 then Rounds(remaining, short, captured, spent)
    else DefaultBytes(short) == MAX_RUN_BYTES || spent * remaining / captured <= DefaultBytes(short)
  }

  lemma NothingToMeasureBy(remaining: int, short: int, captured: int, spent: int)
    requires remaining > 0 && short > 0 && short * BYTES_PER_FILE < TWO_TO_63 && (captured <= 0 || spent <= 0)
    ensures Covers(remaining, short, captured, spent)
  {
    DefaultWithin(short);
    OfferOf(DefaultBytes(short), DefaultBytes(short), 0);
  }

  lemma CoversBelowTheBound(remaining: int, short: int, captured: int, spent: int)
    requires remaining > 0 && short > 0 && captured > 0 && spent > 0 && Fits(remaining, short, captured, spent)
    ensures Covers(remaining, short, captured, spent) <==> Rounds(remaining, short, captured, spent)
  {
    if Rounds(remaining, short, captured, spent) {
      OfferIsSound(remaining, short, captured, spent);
    } else {
      WantedBounds(remaining, short, captured, spent);
      WrapsBelow(Wanted(remaining, short, captured, spent));
      ProductsClimb(spent, spent, remaining, remaining + 1);
      WrappedWithin(spent * remaining);
      QuotientClimbs(0, spent * remaining, captured);
    }
  }

  /** Past the bound the measured product is negative, and the offer what a run gets with no raise. */
  lemma PastTheBoundTheDefaultIsOffered(remaining: int, short: int, captured: int, spent: int)
    requires remaining > 0 && short > 0 && captured > 0 && spent > 0 && short * BYTES_PER_FILE < TWO_TO_63
    requires spent * remaining < TWO_TO_63 <= spent * (remaining + 1)
    ensures TopUpBytes(remaining, short, captured, spent) == DefaultBytes(short)
    ensures TopUpFloor(remaining, captured, spent) == spent * remaining / captured
  {
    DefaultWithin(short);
    ProductsClimb(spent, spent, 1, remaining);
    assert spent * (remaining + 1) == spent * remaining + spent;
    assert Wrapped(spent * (remaining + 1)) == spent * (remaining + 1) - TWO_TO_64 < 0;
    WrappedWithin(spent * remaining);
    NegativeQuotient(Wrapped(spent * (remaining + 1)), captured);
    WholeMibStays(DefaultBytes(short));
  }

  lemma NegativeQuotient(x: int, y: int)
    requires x < 0 && y > 0
    ensures Quotient(x, y) <= 0
  {
    FitsBelow(0, -x, y);
  }

  lemma WholeMibStays(want: int)
    requires 0 <= want <= MAX_RUN_BYTES && want % MIB == 0
    ensures Offer(want) == want
  {
    RoundingUp(want);
  }

  /** The promise is kept exactly as said, wherever the least cost itself can be written down. */
  lemma OfferCoversIff(remaining: int, short: int, captured: int, spent: int)
    requires remaining > 0 && short > 0 && short * BYTES_PER_FILE < TWO_TO_63 && spent * remaining < TWO_TO_63
    ensures Covers(remaining, short, captured, spent) <==> KeepsThePromise(remaining, short, captured, spent)
  {
    if captured <= 0 || spent <= 0 {
      NothingToMeasureBy(remaining, short, captured, spent);
    } else if spent * (remaining + 1) < TWO_TO_63 {
      CoversBelowTheBound(remaining, short, captured, spent);
    } else {
      PastTheBoundTheDefaultIsOffered(remaining, short, captured, spent);
    }
  }

  /** Where it cannot, the true least cost is covered exactly when what is left of the measured product prices at
      the run cap, or at that cost to the MiB. The second takes a receipt of two to the 31 points: below that the
      true cost is beyond any offer. */
  lemma BeyondTheLeastCost(remaining: int, short: int, captured: int, spent: int)
    requires remaining > 0 && short > 0 && short * BYTES_PER_FILE < TWO_TO_63
    requires captured > 0 && spent > 0 && spent * remaining >= TWO_TO_63
    ensures var offer, cost := TopUpBytes(remaining, short, captured, spent), spent * remaining / captured;
            var want := Wanted(remaining, short, captured, spent);
            ((offer == MAX_RUN_BYTES || cost <= offer) <==>
             Rounds(remaining, short, captured, spent) &&
             (want > MAX_RUN_BYTES - MIB || (cost + MIB - 1) / MIB <= (want + MIB - 1) / MIB)) &&
            (captured < 0x8000_0000 ==> cost > MAX_RUN_BYTES)
  {
    var want, cost := Wanted(remaining, short, captured, spent), spent * remaining / captured;
    WantedBounds(remaining, short, captured, spent);
    FitsBelow(0, spent * remaining, captured);
    if captured < 0x8000_0000 {
      ProductsClimb(MAX_RUN_BYTES + 1, MAX_RUN_BYTES + 1, captured, 0x8000_0000);
      FitsBelow(MAX_RUN_BYTES + 1, spent * remaining, captured);
    }
    if Rounds(remaining, short, captured, spent) {
      CapIff(want);
      if Offer(want) < MAX_RUN_BYTES { CoversToTheMib(cost, want); }
    } else {
      WrapsBelow(want);
    }
  }

  lemma CoversToTheMib(cost: int, want: int)
    requires 0 <= cost && 0 <= want && want + MIB - 1 < TWO_TO_63 && Offer(want) < MAX_RUN_BYTES
    ensures cost <= Offer(want) <==> (cost + MIB - 1) / MIB <= (want + MIB - 1) / MIB
  {
    RoundingUp(want);
  }

  lemma CapIff(want: int)
    requires 0 <= want && want + MIB - 1 < TWO_TO_63
    ensures Offer(want) <= MAX_RUN_BYTES && (Offer(want) == MAX_RUN_BYTES <==> want > MAX_RUN_BYTES - MIB)
  {
    RoundingUp(want);
  }

  /** Past the bound the offer can fall short of the floor it is there to cover: two to the 62 bytes spent on
      one point with one to go. */
  lemma PastTheBoundTheOfferFallsShort()
    ensures !Covers(1, 1, 1, TWO_TO_63 / 2) && TopUpBytes(1, 1, 1, TWO_TO_63 / 2) == BYTES_PER_FILE
  {
    var spent := TWO_TO_63 / 2;
    DefaultWithin(1);
    PastTheBoundTheDefaultIsOffered(1, 1, 1, spent);
  }

  /** And below it the price can wrap as it is rounded up: one byte less, and the offer is negative. */
  lemma RoundingUpCanWrap()
    ensures var spent := TWO_TO_63 / 2 - 1;
            Fits(1, 1, 1, spent) && !Rounds(1, 1, 1, spent) && !Covers(1, 1, 1, spent) && TopUpBytes(1, 1, 1, spent) < 0
  {
    var spent := TWO_TO_63 / 2 - 1;
    assert spent * (1 + 1) == TWO_TO_63 - 2;
    WrappedWithin(TWO_TO_63 - 2);
    assert Wanted(1, 1, 1, spent) == TWO_TO_63 - 2;
    WrapsBelow(TWO_TO_63 - 2);
    CoversBelowTheBound(1, 1, 1, spent);
  }

  // ---- what a set's manifests say its run cost ----

  datatype Hit = NoHit | HitRoof | HitTime | HitTraffic

  datatype Limit = Unknown | LimitTraffic | LimitTime | LimitRoof

  datatype Cost = Cost(downloaded: int, limitBytes: int, hit: Hit, limitMs: int, elapsedMs: int)

  datatype Reading = Reading(spent: int, ceiling: int, stoppedBy: Hit, limit: Limit)

  const BLANK := Reading(0, 0, NoHit, Unknown)

  function LimitOf(c: Cost): Limit {
    match c.hit
    case HitRoof => LimitRoof
    case HitTime => LimitTime
    case _ => if c.limitMs > 0 && c.elapsedMs >= c.limitMs then LimitTime else LimitTraffic
  }

  /** Which limit a reason names: of one that does not say time, time all the same where the run's own clock had
      run out, as records from before there was such a reason have it. */
  lemma LimitNames(c: Cost)
    ensures LimitOf(c) == LimitRoof <==> c.hit == HitRoof
    ensures LimitOf(c) == LimitTime <==>
              c.hit == HitTime || (c.hit != HitRoof && 0 < c.limitMs <= c.elapsedMs)
    ensures LimitOf(c) != Unknown
  {
  }

  function Absorbed(r: Reading, c: Cost): Reading {
    var more := if c.downloaded > r.spent then r.(spent := c.downloaded, ceiling := c.limitBytes) else r;
    if c.hit == NoHit || r.stoppedBy == HitRoof then more
    else more.(stoppedBy := c.hit, limit := LimitOf(c))
  }

  function AbsorbedAll(costs: seq<Cost>): Reading {
    if costs == [] then BLANK else Absorbed(AbsorbedAll(costs[..|costs| - 1]), costs[|costs| - 1])
  }

  /** What is left of a list of costs: the largest figure with the ceiling of a run that spent it, and the roof
      as the reason whenever any file was stopped by it, or else the last reason given. */
  lemma {:induction false} ReadingMeans(costs: seq<Cost>)
    ensures var r := AbsorbedAll(costs);
            (forall c :: c in costs ==> c.downloaded <= r.spent) && r.spent >= 0 &&
            (r.spent > 0 ==> exists c :: c in costs && c.downloaded == r.spent && c.limitBytes == r.ceiling) &&
            (r.stoppedBy == HitRoof <==> exists c :: c in costs && c.hit == HitRoof) &&
            (r.limit == LimitRoof <==> r.stoppedBy == HitRoof) &&
            (r.stoppedBy == NoHit <==> forall c :: c in costs ==> c.hit == NoHit)
  {
    if costs != [] {
      var front, last := costs[..|costs| - 1], costs[|costs| - 1];
      ReadingMeans(front);
      assert costs == front + [last];
      assert forall c :: c in costs <==> c in front || c == last;
    }
  }

  /** The order the files are read in changes neither the figure nor whether the roof is to blame. */
  lemma OrderDoesNotMatter(a: seq<Cost>, b: seq<Cost>)
    requires forall c :: c in a <==> c in b
    ensures AbsorbedAll(a).spent == AbsorbedAll(b).spent
    ensures AbsorbedAll(a).stoppedBy == HitRoof <==> AbsorbedAll(b).stoppedBy == HitRoof
    ensures AbsorbedAll(a).stoppedBy == NoHit <==> AbsorbedAll(b).stoppedBy == NoHit
  {
    ReadingMeans(a);
    ReadingMeans(b);
  }

  /** The last cost that says the run was stopped. */
  function LastStop(costs: seq<Cost>): seq<Cost> {
    if costs == [] then []
    else if costs[|costs| - 1].hit != NoHit then [costs[|costs| - 1]]
    else LastStop(costs[..|costs| - 1])
  }

  /** With no roof among them the last file that gives a reason decides it, and which limit is named with it. */
  lemma {:induction false} LastReasonStands(costs: seq<Cost>)
    requires forall c :: c in costs ==> c.hit != HitRoof
    ensures var r := AbsorbedAll(costs);
            if LastStop(costs) == [] then r.stoppedBy == NoHit && r.limit == Unknown
            else r.stoppedBy == LastStop(costs)[0].hit && r.limit == LimitOf(LastStop(costs)[0])
  {
    if costs != [] {
      var front := costs[..|costs| - 1];
      assert costs == front + [costs[|costs| - 1]];
      LastReasonStands(front);
      ReadingMeans(front);
    }
  }

  /** The ceiling kept is that of the first file to show the largest figure. */
  lemma {:induction false} CeilingIsTheFirstLargest(costs: seq<Cost>) returns (k: nat)
    ensures var r := AbsorbedAll(costs);
            if r.spent == 0 then r.ceiling == 0
            else k < |costs| && costs[k].downloaded == r.spent && costs[k].limitBytes == r.ceiling &&
                 forall j :: 0 <= j < k ==> costs[j].downloaded < r.spent
  {
    k := 0;
    if costs != [] {
      var front, last := costs[..|costs| - 1], costs[|costs| - 1];
      var m := CeilingIsTheFirstLargest(front);
      ReadingMeans(front);
      k := if last.downloaded > AbsorbedAll(front).spent then |costs| - 1 else m;
      assert forall j :: 0 <= j < |front| ==> costs[j] == front[j] && front[j] in front;
    }
  }

  /** So on a tie the order decides the ceiling, and only on a tie. */
  lemma OrderPicksTheCeilingOnTies(a: seq<Cost>, b: seq<Cost>)
    requires forall c :: c in a <==> c in b
    requires forall c, d :: c in a && d in a && c.downloaded == d.downloaded == AbsorbedAll(a).spent ==>
               c.limitBytes == d.limitBytes
    ensures AbsorbedAll(a).ceiling == AbsorbedAll(b).ceiling
  {
    OrderDoesNotMatter(a, b);
    var i := CeilingIsTheFirstLargest(a);
    var j := CeilingIsTheFirstLargest(b);
    if AbsorbedAll(a).spent != 0 { assert a[i] in a && b[j] in a; }
  }

  lemma ATieGoesToTheFirst(one: Cost, other: Cost)
    requires one.downloaded == other.downloaded > 0
    ensures AbsorbedAll([one, other]).ceiling == one.limitBytes && AbsorbedAll([other, one]).ceiling == other.limitBytes
  {
    assert [one, other][..1] == [one] && [other, one][..1] == [other];
    assert [one][..0] == [] && [other][..0] == [];
    assert AbsorbedAll([one]) == Absorbed(BLANK, one) && AbsorbedAll([other]) == Absorbed(BLANK, other);
  }

  /** It does change which of the run's own two limits is named: the last one read. */
  lemma OrderPicksTheReason(early: Cost, late: Cost)
    requires early.hit == HitTime && late.hit == HitTraffic && late.limitMs == 0
    ensures AbsorbedAll([early, late]).limit == LimitTraffic && AbsorbedAll([late, early]).limit == LimitTime
  {
    assert [early, late][..1] == [early] && [late, early][..1] == [late];
    assert [early][..0] == [] && [late][..0] == [];
    assert AbsorbedAll([early]) == Absorbed(BLANK, early) && AbsorbedAll([late]) == Absorbed(BLANK, late);
  }

  // ---- the offer ----

  /** One file of the set: how many points the plan asks of it, how many frames its manifest holds and what it
      says the run had cost by then. One whose manifest cannot be read holds none and says nothing. */
  datatype Video = Video(planned: nat, captured: nat, cost: Cost)

  function Kept(v: Video): nat { if v.captured > v.planned then v.planned else v.captured }

  function CapturedOf(files: seq<Video>): nat {
    if files == [] then 0 else CapturedOf(files[..|files| - 1]) + Kept(files[|files| - 1])
  }

  function OwedBy(files: seq<Video>): nat {
    if files == [] then 0 else OwedBy(files[..|files| - 1]) + files[|files| - 1].planned - Kept(files[|files| - 1])
  }

  function ShortOf(files: seq<Video>): nat {
    if files == [] then 0
    else ShortOf(files[..|files| - 1]) + if Kept(files[|files| - 1]) < files[|files| - 1].planned then 1 else 0
  }

  function CostsOf(files: seq<Video>): seq<Cost> {
    if files == [] then [] else CostsOf(files[..|files| - 1]) + [files[|files| - 1].cost]
  }

  /** Points are owed exactly when some file is short, so the two guards of the price never disagree. */
  lemma {:induction false} OwedIffShort(files: seq<Video>)
    ensures OwedBy(files) > 0 <==> ShortOf(files) > 0
    ensures OwedBy(files) >= ShortOf(files)
  {
    if files != [] { OwedIffShort(files[..|files| - 1]); }
  }

  /** One point of one of the files. */
  datatype Spot = Spot(file: nat, point: nat)

  /** The points of file n from one number up to another. */
  function SpotsOf(n: nat, first: nat, stop: nat): set<Spot> {
    set k: nat | first <= k < stop :: Spot(n, k)
  }

  lemma {:induction false} SpotsCount(n: nat, first: nat, stop: nat)
    requires first <= stop
    ensures |SpotsOf(n, first, stop)| == stop - first
    decreases stop - first
  {
    if first < stop {
      SpotsCount(n, first, stop - 1);
      assert SpotsOf(n, first, stop) == SpotsOf(n, first, stop - 1) + {Spot(n, stop - 1)};
    }
  }

  /** The points the plan asks for and no manifest has, and those that one has. */
  function DueSpots(files: seq<Video>): set<Spot> {
    set n: nat, k: nat | n < |files| && k < files[n].planned && files[n].captured <= k :: Spot(n, k)
  }

  function TakenSpots(files: seq<Video>): set<Spot> {
    set n: nat, k: nat | n < |files| && k < files[n].planned && k < files[n].captured :: Spot(n, k)
  }

  lemma OneMoreDue(front: seq<Video>, v: Video)
    ensures DueSpots(front + [v]) == DueSpots(front) + SpotsOf(|front|, Kept(v), v.planned)
    ensures DueSpots(front) !! SpotsOf(|front|, Kept(v), v.planned)
  {
    var files := front + [v];
    forall x ensures x in DueSpots(files) <==> x in DueSpots(front) + SpotsOf(|front|, Kept(v), v.planned) {
      assert x in DueSpots(files) <==>
        x.file < |files| && files[x.file].captured <= x.point < files[x.file].planned;
    }
  }

  lemma OneMoreTaken(front: seq<Video>, v: Video)
    ensures TakenSpots(front + [v]) == TakenSpots(front) + SpotsOf(|front|, 0, Kept(v))
    ensures TakenSpots(front) !! SpotsOf(|front|, 0, Kept(v))
  {
    var files := front + [v];
    forall x ensures x in TakenSpots(files) <==> x in TakenSpots(front) + SpotsOf(|front|, 0, Kept(v)) {
      assert x in TakenSpots(files) <==>
        x.file < |files| && x.point < files[x.file].planned && x.point < files[x.file].captured;
    }
  }

  /** The files that have fewer frames than the plan asks of them. */
  function ShortFiles(files: seq<Video>): set<nat> {
    set n: nat | n < |files| && files[n].captured < files[n].planned
  }

  lemma OneMoreShort(front: seq<Video>, v: Video)
    ensures ShortFiles(front + [v]) == ShortFiles(front) + if v.captured < v.planned then {|front|} else {}
  {
  }

  /** The totals are counts: of points owed, of points captured, of files with any point owed. */
  lemma {:induction false} TotalsCount(files: seq<Video>)
    ensures OwedBy(files) == |DueSpots(files)| && CapturedOf(files) == |TakenSpots(files)|
    ensures ShortOf(files) == |ShortFiles(files)|
  {
    if files != [] {
      var front, v := files[..|files| - 1], files[|files| - 1];
      assert files == front + [v];
      TotalsCount(front);
      OneMoreDue(front, v);
      OneMoreTaken(front, v);
      OneMoreShort(front, v);
      SpotsCount(|front|, Kept(v), v.planned);
      SpotsCount(|front|, 0, Kept(v));
    }
  }

  lemma OneMoreFile(files: seq<Video>, n: nat)
    requires n < |files|
    ensures var v, before := files[n], files[..n];
            OwedBy(files[..n + 1]) == OwedBy(before) + v.planned - Kept(v) &&
            CapturedOf(files[..n + 1]) == CapturedOf(before) + Kept(v) &&
            ShortOf(files[..n + 1]) == ShortOf(before) + (if Kept(v) < v.planned then 1 else 0) &&
            AbsorbedAll(CostsOf(files[..n + 1])) == Absorbed(AbsorbedAll(CostsOf(before)), v.cost)
  {
    var longer := files[..n + 1];
    assert longer[..n] == files[..n];
    assert CostsOf(longer)[..|CostsOf(longer)| - 1] == CostsOf(files[..n]);
  }

  class TopUp {
    var remaining: nat
    var captured: nat
    var short: nat
    var reading: Reading
    var refused: bool
    var complete: bool
    var raiseHelps: bool
    var offer: int
    var roofCapped: bool

    constructor ()
      ensures remaining == 0 && captured == 0 && short == 0 && reading == BLANK
      ensures !refused && !complete && !raiseHelps && offer == 0 && !roofCapped
    {
      remaining, captured, short, reading := 0, 0, 0, BLANK;
      refused, complete, raiseHelps, offer, roofCapped := false, false, false, 0, false;
    }

    method AbsorbCost(c: Cost)
      modifies this`reading
      ensures reading == Absorbed(old(reading), c)
    {
      var r := reading;
      if c.downloaded > r.spent { r := r.(spent := c.downloaded, ceiling := c.limitBytes); }
      reading := r;
      if c.hit == NoHit { return; }
      if r.stoppedBy == HitRoof { return; }
      reading := r.(stoppedBy := c.hit, limit := LimitOf(c));
    }

    /** topUpFor's loop over the files the run was asked for. */
    method AbsorbFiles(files: seq<Video>)
      requires remaining == 0 && captured == 0 && short == 0 && reading == BLANK
      modifies this`remaining, this`captured, this`short, this`reading
      ensures remaining == OwedBy(files) && captured == CapturedOf(files) && short == ShortOf(files)
      ensures reading == AbsorbedAll(CostsOf(files))
    {
      for n := 0 to |files|
        invariant remaining == OwedBy(files[..n]) && captured == CapturedOf(files[..n])
        invariant short == ShortOf(files[..n]) && reading == AbsorbedAll(CostsOf(files[..n]))
      {
        var v := files[n];
        OneMoreFile(files, n);
        var kept := if v.captured > v.planned then v.planned else v.captured;
        AbsorbCost(v.cost);
        captured, remaining := captured + kept, remaining + v.planned - kept;
        if kept < v.planned { short := short + 1; }
      }
      assert files[..|files|] == files;
    }

    /** topUpFor, past its refusals of records too old to tell. */
    method Read(files: seq<Video>, roof: int)
      requires remaining == 0 && captured == 0 && short == 0 && reading == BLANK && offer == 0
      requires !refused && !raiseHelps && !complete
      modifies this
      ensures remaining == OwedBy(files) && captured == CapturedOf(files) && short == ShortOf(files)
      ensures reading == AbsorbedAll(CostsOf(files))
      ensures refused <==>
                files == [] || remaining == 0 || (roof > 0 && TopUpFloor(remaining, captured, reading.spent) > roof)
      ensures complete <==> files != [] && ShortOf(files) == 0
      ensures offer > 0 ==> raiseHelps && !refused && ShortOf(files) > 0
      ensures roof > 0 ==> offer <= roof
      ensures raiseHelps <==> !refused && (reading.limit == LimitTraffic || reading.limit == Unknown)
      ensures !raiseHelps ==> offer == 0 && roofCapped == old(roofCapped)
      ensures raiseHelps ==>
                var full := TopUpBytes(remaining, short, captured, reading.spent);
                offer == (if roof > 0 && full > roof then roof else full) &&
                (roofCapped <==> old(roofCapped) || (roof > 0 && full > roof))
    {
      AbsorbFiles(files);
      OwedIffShort(files);
      if files == [] { refused := true; return; }
      if remaining == 0 { refused, complete := true, true; return; }
      Price(roof);
    }

    /** Never above a roof; refused outright when the least finishing can cost is above it; and an offer cut
        down to the roof still covers that least. */
    method Price(roof: int)
      requires !refused && offer == 0 && !raiseHelps
      modifies this`refused, this`raiseHelps, this`offer, this`roofCapped
      ensures !raiseHelps ==> roofCapped == old(roofCapped)
      ensures raiseHelps ==>
                (roofCapped <==> old(roofCapped) ||
                                 (roof > 0 && TopUpBytes(remaining, short, captured, reading.spent) > roof))
      ensures refused <==> roof > 0 && TopUpFloor(remaining, captured, reading.spent) > roof
      ensures raiseHelps <==> !refused && reading.limit in {LimitTraffic, Unknown}
      ensures !raiseHelps ==> offer == 0
      ensures raiseHelps ==>
                offer == (var full := TopUpBytes(remaining, short, captured, reading.spent);
                          if roof > 0 && full > roof then roof else full)
      ensures roof > 0 && raiseHelps && offer < TopUpBytes(remaining, short, captured, reading.spent) ==>
                roofCapped && offer == roof >= TopUpFloor(remaining, captured, reading.spent)
    {
      var floor := TopUpFloor(remaining, captured, reading.spent);
      if roof > 0 && floor > roof {
        refused := true;
        return;
      }
      raiseHelps := reading.limit == LimitTraffic || reading.limit == Unknown;
      if !raiseHelps { return; }
      offer := TopUpBytes(remaining, short, captured, reading.spent);
      if roof > 0 && offer > roof { offer, roofCapped := roof, true; }
    }
  }
}
