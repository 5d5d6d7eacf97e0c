/**
 * Day 4 (src/p04.rs): counting the passwords in a range that have six
 * digits, two equal adjacent digits, and digits that never decrease from
 * left to right.
 */
module P04 {
  import opened Text

  /** `digits`: the decimal digits of `x`, most significant first, as `to_string` prints them. */
  function Digits(x: nat): (ds: seq<nat>)
    ensures |ds| == |NatToString(x)| > 0
    ensures forall i :: 0 <= i < |ds| ==> ds[i] < 10 && ds[i] == CharValue(NatToString(x)[i])
  {
    var s := NatToString(x);
    seq(|s|, i requires 0 <= i < |s| => CharValue(s[i]))
  }

  /** The decimal digits of `x`, taken off by repeated division. */
  function DigitList(x: nat): seq<nat>
  {
    if x < 10 then [x] else DigitList(x / 10) + [x % 10]
  }

  /** The printed digits are the digits taken off by division. */
  lemma {:induction false} DigitsByDivision(x: nat)
    ensures Digits(x) == DigitList(x)
    decreases x
  {
    if x >= 10 {
      DigitsByDivision(x / 10);
      assert NatToString(x) == NatToString(x / 10) + [DigitChar(x % 10)];
      assert Digits(x) == Digits(x / 10) + [x % 10];
    }
  }

  /** Digits computed by division are the printed digits. */
  lemma DigitsOf(x: nat, ds: seq<nat>)
    requires DigitList(x) == ds
    ensures Digits(x) == ds
  {
    DigitsByDivision(x);
  }

  /** A number is printed with `k` digits exactly when it lies in `[10^(k-1), 10^k)` (or is a single digit). */
  lemma {:induction false} DigitCount(x: nat, k: nat)
    requires k >= 1
    ensures |NatToString(x)| == k <==> (if k == 1 then x < 10 else Pow10(k - 1) <= x < Pow10(k))
    decreases x
  {
    if x >= 10 {
      assert |NatToString(x)| == |NatToString(x / 10)| + 1;
      if k >= 2 {
        DigitCount(x / 10, k - 1);
        if k >= 3 {
          assert Pow10(k - 1) == 10 * Pow10(k - 2);
        }
      } else {
        assert |NatToString(x / 10)| >= 1;
      }
    } else if k >= 2 {
      PowAtLeastTen(k - 1);
    }
  }

  lemma {:induction false} PowAtLeastTen(k: nat)
    requires k >= 1
    ensures Pow10(k) >= 10
    decreases k
  {
    if k > 1 {
      PowAtLeastTen(k - 1);
    }
  }

  /** A password has six digits exactly when it lies between 100000 and 999999. */
  lemma SixDigits(x: nat)
    ensures |Digits(x)| == 6 <==> 100000 <= x <= 999999
  {
    DigitCount(x, 6);
    assert Pow10(5) == 100000 && Pow10(6) == 1000000;
  }

  /** `windows(2).any(|xs| xs[0] == xs[1])`. */
  predicate HasDouble(ds: seq<nat>)
  {
    exists i :: 0 <= i < |ds| - 1 && ds[i] == ds[i + 1]
  }

  /** `windows(2).all(|xs| xs[0] <= xs[1])`. */
  predicate NeverDecreases(ds: seq<nat>)
  {
    forall i :: 0 <= i < |ds| - 1 ==> ds[i] <= ds[i + 1]
  }

  /** Digits that never decrease from one to the next are sorted: no later digit is smaller than an earlier one. */
  lemma {:induction false} NeverDecreasesSorted(ds: seq<nat>, i: nat, j: nat)
    requires NeverDecreases(ds)
    requires i <= j < |ds|
    ensures ds[i] <= ds[j]
    decreases j - i
  {
    if i < j {
      NeverDecreasesSorted(ds, i + 1, j);
    }
  }

  datatype Criteria = Criteria(min: nat, max: nat)

  /** `Criteria::valid`: six digits, within `[min, max]`, a double, and never decreasing. */
  predicate Valid(c: Criteria, pass: nat)
  {
    var ds := Digits(pass);
    |ds| == 6 && c.min <= pass && pass <= c.max && HasDouble(ds) && NeverDecreases(ds)
  }

  /** What a valid password is, in terms of its value and its digits. */
  lemma ValidMeans(c: Criteria, pass: nat)
    ensures Valid(c, pass) <==>
      100000 <= pass <= 999999 && c.min <= pass <= c.max &&
      HasDouble(Digits(pass)) && NeverDecreases(Digits(pass))
  {
    SixDigits(pass);
  }

  /** `valid` as a test on passwords, for a fixed set of criteria. */
  function Validator(c: Criteria): nat -> bool
  {
    (pass: nat) => Valid(c, pass)
  }

  /** The numbers in `[lo, hi)` that pass `ok`, counted one by one. */
  function CountIn(ok: nat -> bool, lo: nat, hi: nat): nat
    decreases hi - lo
  {
    if lo >= hi then 0 else (if ok(lo) then 1 else 0) + CountIn(ok, lo + 1, hi)
  }

  /** The set of numbers in `[lo, hi)` that pass `ok`. */
  function PassIn(ok: nat -> bool, lo: nat, hi: nat): set<nat>
  {
    set p | lo <= p < hi && ok(p)
  }

  /** The count is the size of the set of numbers in the range that pass. */
  lemma {:induction false} CountInIsCard(ok: nat -> bool, lo: nat, hi: nat)
    ensures CountIn(ok, lo, hi) == |PassIn(ok, lo, hi)|
    decreases hi - lo
  {
    if lo < hi {
      CountInIsCard(ok, lo + 1, hi);
      if ok(lo) {
        assert PassIn(ok, lo, hi) == PassIn(ok, lo + 1, hi) + {lo};
      } else {
        assert PassIn(ok, lo, hi) == PassIn(ok, lo + 1, hi);
      }
    } else {
      assert PassIn(ok, lo, hi) == {};
    }
  }

  /** Widening the range by one at the top adds that number when it passes. */
  lemma {:induction false} CountInSplit(ok: nat -> bool, lo: nat, hi: nat)
    requires lo <= hi
    ensures CountIn(ok, lo, hi + 1) == CountIn(ok, lo, hi) + (if ok(hi) then 1 else 0)
    decreases hi - lo
  {
    if lo < hi {
      CountInSplit(ok, lo + 1, hi);
    }
  }

  /** The numbers from `min` up that pass the criteria's test are the valid passwords: none lies below `min`. */
  lemma PassedAreValid(c: Criteria, hi: nat)
    ensures PassIn(Validator(c), c.min, hi) == set p | 0 <= p < hi && Valid(c, p)
  {
  }

  /** `Criteria::count` as written: the valid passwords in `min..max`, which leaves `max` out. */
  function Count(c: Criteria): nat
  {
    CountIn(Validator(c), c.min, c.max)
  }

  /** The count the criteria describe: the valid passwords in `min..=max`. */
  function CountInclusive(c: Criteria): nat
  {
    CountIn(Validator(c), c.min, c.max + 1)
  }

  /** `part1` as written: the count of `Criteria::new(min, max)`, the valid passwords from `min` below `max`. */
  function Part1(min: nat, max: nat): (n: nat)
    ensures n == |set p | min <= p < max && Valid(Criteria(min, max), p)|
  {
    CountsMeaning(Criteria(min, max));
    assert (set p | 0 <= p < max && Valid(Criteria(min, max), p)) == (set p | min <= p < max && Valid(Criteria(min, max), p));
    Count(Criteria(min, max))
  }

  /** `part1` over the whole range the criteria accept, `max` included. */
  function Part1Corrected(min: nat, max: nat): (n: nat)
    ensures n == |set p | min <= p <= max && Valid(Criteria(min, max), p)|
    ensures n == Part1(min, max) + (if Valid(Criteria(min, max), max) then 1 else 0)
  {
    CountsMeaning(Criteria(min, max));
    assert (set p | 0 <= p <= max && Valid(Criteria(min, max), p)) == (set p | min <= p <= max && Valid(Criteria(min, max), p));
    CountInclusive(Criteria(min, max))
  }

  /** The inclusive count is the number of passwords that `valid` accepts; the written one misses `max` when it is valid. */
  lemma CountsMeaning(c: Criteria)
    ensures CountInclusive(c) == |set p | 0 <= p <= c.max && Valid(c, p)|
    ensures Count(c) == |set p | 0 <= p < c.max && Valid(c, p)|
    ensures CountInclusive(c) == Count(c) + (if Valid(c, c.max) then 1 else 0)
  {
    var ok := Validator(c);
    CountInIsCard(ok, c.min, c.max + 1);
    CountInIsCard(ok, c.min, c.max);
    PassedAreValid(c, c.max + 1);
    PassedAreValid(c, c.max);
    assert (set p | 0 <= p < c.max + 1 && Valid(c, p)) == set p | 0 <= p <= c.max && Valid(c, p);
    if c.min <= c.max {
      CountInSplit(ok, c.min, c.max);
    }
  }

  /** The first password of the test: all ones is valid. */
  lemma ValidOnes()
    ensures Valid(Criteria(100000, 999999), 111111)
  {
    Ones();
  }

  /** All ones: six digits, a double, and never decreasing. */
  lemma Ones()
    ensures |Digits(111111)| == 6 && HasDouble(Digits(111111)) && NeverDecreases(Digits(111111))
  {
    OnesDigits(111111);
    var ds := [1, 1, 1, 1, 1, 1];
    assert ds[0] == ds[1];
    assert HasDouble(ds) && NeverDecreases(ds);
  }

  lemma OnesDigits(x: nat)
    requires x == 111111
    ensures Digits(x) == [1, 1, 1, 1, 1, 1]
  {
    assert DigitList(111) == [1, 1, 1];
    assert DigitList(11111) == [1, 1, 1, 1, 1];
    assert DigitList(111111) == [1, 1, 1, 1, 1, 1];
    DigitsOf(x, [1, 1, 1, 1, 1, 1]);
  }

  /** The second password of the test: its last digit decreases. */
  lemma InvalidDecreasing()
    ensures !Valid(Criteria(100000, 999999), 223450)
  {
    DecreasingDigits(223450);
  }

  lemma DecreasingDigits(x: nat)
    requires x == 223450
    ensures Digits(x) == [2, 2, 3, 4, 5, 0] && !NeverDecreases(Digits(x))
  {
    assert DigitList(223) == [2, 2, 3];
    assert DigitList(22345) == [2, 2, 3, 4, 5];
    assert DigitList(223450) == [2, 2, 3, 4, 5, 0];
    DigitsOf(x, [2, 2, 3, 4, 5, 0]);
    assert Digits(x)[4] > Digits(x)[5];
  }

  /** The third password of the test: it has no double. */
  lemma InvalidNoDouble()
    ensures !Valid(Criteria(100000, 999999), 123789)
  {
    NoDoubleDigits(123789);
  }

  lemma NoDoubleDigits(x: nat)
    requires x == 123789
    ensures Digits(x) == [1, 2, 3, 7, 8, 9] && !HasDouble(Digits(x))
  {
    assert DigitList(123) == [1, 2, 3];
    assert DigitList(12378) == [1, 2, 3, 7, 8];
    assert DigitList(123789) == [1, 2, 3, 7, 8, 9];
    DigitsOf(x, [1, 2, 3, 7, 8, 9]);
    NoDoubleIn([1, 2, 3, 7, 8, 9]);
  }

  /** Digits that strictly increase hold no double. */
  lemma NoDoubleIn(ds: seq<nat>)
    requires forall i :: 0 <= i < |ds| - 1 ==> ds[i] < ds[i + 1]
    ensures !HasDouble(ds)
  {
  }

  /** With `min == max == 111111`, that one valid password is not counted as written, and is once intended. */
  lemma CountMissesMax()
    ensures Valid(Criteria(111111, 111111), 111111)
    ensures Count(Criteria(111111, 111111)) == 0
    ensures CountInclusive(Criteria(111111, 111111)) == 1
    ensures Part1(111111, 111111) == 0 && Part1Corrected(111111, 111111) == 1
  {
    Ones();
    assert Validator(Criteria(111111, 111111))(111111);
    assert CountIn(Validator(Criteria(111111, 111111)), 111112, 111112) == 0;
  }
}
