/** The TPC-H answer comparator: cells within the tolerance of clause 2.1.3.5, rows in order or as a multiset. */
module TpchCompare {
  import opened Common

  datatype Cell = Null | Int(i: int) | Num(x: real) | Text(s: string)

  type Row = seq<Cell>

  const TOLERANCE := 0.01

  function Gap(x: real, y: real): real {
    if x < y then y - x else x - y
  }

  // ---- integers as doubles ----------------------------------------------------------------------

  const EXACT := 0x20_0000_0000_0000   // 2^53: every integer up to here is a double

  /** The distance between the doubles around `m`, if it is more than 1. */
  function Ulp(m: nat): (u: nat)
    ensures u >= 1
  {
    if m < EXACT then 1 else 2 * Ulp(m / 2)
  }

  /** `m` rounded to the nearest double, ties to an even significand. */
  function Nearest(m: nat): int {
    var u := Ulp(m);
    var q, r := m / u, m % u;
    if 2 * r < u || (2 * r == u && q % 2 == 0) then q * u else (q + 1) * u
  }

  /** The cast of an integer to f64, which yields an integer. */
  function AsFloat(n: int): int {
    if n >= 0 then Nearest(n) else -Nearest(-n)
  }

  lemma ExactFloat(n: int)
    requires -EXACT <= n <= EXACT
    ensures AsFloat(n) == n
  {
    var m: nat := if n >= 0 then n else -n;
    assert m == EXACT ==> Ulp(m) == 2 * Ulp(m / 2) == 2;
  }

  // ---- cells --------------------------------------------------------------------------------------

  predicate CellsMatch(expected: Cell, actual: Cell) {
    match (expected, actual)
    case (Null, Null) => true
    case (Int(a), Int(b)) => a == b
    case (Int(a), Num(b)) => Gap(AsFloat(a) as real, b) <= TOLERANCE
    case (Num(b), Int(a)) => Gap(AsFloat(a) as real, b) <= TOLERANCE
    case (Num(a), Num(b)) => Gap(a, b) <= TOLERANCE
    case (Text(a), Text(b)) => a == b
    case _ => false
  }

  predicate RowsMatch(expected: Row, actual: Row) {
    |expected| == |actual| && forall i | 0 <= i < |expected| :: CellsMatch(expected[i], actual[i])
  }

  predicate CellsConfusable(a: Cell, b: Cell) {
    match (a, b)
    case (Null, Null) => true
    case (Int(x), Int(y)) => x == y
    case (Text(x), Text(y)) => x == y
    case (Int(x), Num(y)) => Gap(AsFloat(x) as real, y) <= 2.0 * TOLERANCE
    case (Num(y), Int(x)) => Gap(AsFloat(x) as real, y) <= 2.0 * TOLERANCE
    case (Num(x), Num(y)) => Gap(x, y) <= 2.0 * TOLERANCE
    case _ => false
  }

  predicate RowsConfusable(a: Row, b: Row) {
    |a| == |b| && forall i | 0 <= i < |a| :: CellsConfusable(a[i], b[i])
  }

  ghost predicate Safe(exp: seq<Row>) {
    forall i, j | 0 <= i < j < |exp| :: !RowsConfusable(exp[i], exp[j])
  }

  // ---- what the confusability check is for -----------------------------------------------------------

  /** Different integers with the same double. */
  ghost predicate Collide(a: Cell, b: Cell) {
    a.Int? && b.Int? && a.i != b.i && AsFloat(a.i) == AsFloat(b.i)
  }

  lemma IntegersApart(a: int, b: int, x: real)
    requires Gap(a as real, x) <= TOLERANCE && Gap(b as real, x) <= TOLERANCE
    ensures a == b
  {
    assert Gap(a as real, b as real) <= 2.0 * TOLERANCE;
    assert (a - b) as real == a as real - b as real;
  }

  /** A cell that matches both. */
  ghost function Between(a: Cell, b: Cell): Cell {
    match (a, b)
    case (Int(x), Int(y)) => if x == y then a else Num(AsFloat(x) as real)
    case (Int(x), Num(y)) => Num((AsFloat(x) as real + y) / 2.0)
    case (Num(y), Int(x)) => Num((AsFloat(x) as real + y) / 2.0)
    case (Num(x), Num(y)) => Num((x + y) / 2.0)
    case _ => a
  }

  /** Some cell matches both exactly when they are confusable or are different integers with the same double. */
  lemma SharedMatchIff(a: Cell, b: Cell)
    ensures (exists c :: CellsMatch(a, c) && CellsMatch(b, c)) <==> CellsConfusable(a, b) || Collide(a, b)
  {
    hide AsFloat;
    if c :| CellsMatch(a, c) && CellsMatch(b, c) {
      if a.Int? && b.Int? && c.Num? { IntegersApart(AsFloat(a.i), AsFloat(b.i), c.x); }
    }
    if CellsConfusable(a, b) || Collide(a, b) {
      assert CellsMatch(a, Between(a, b)) && CellsMatch(b, Between(a, b));
    }
  }

  ghost predicate RowsCollide(a: Row, b: Row) {
    |a| == |b| && forall i | 0 <= i < |a| :: CellsConfusable(a[i], b[i]) || Collide(a[i], b[i])
  }

  /** No actual row could match two of the rows. */
  ghost predicate Sharp(exp: seq<Row>) {
    forall i, j | 0 <= i < j < |exp| :: !RowsCollide(exp[i], exp[j])
  }

  /** Among sharp rows no actual row matches two expected ones. */
  lemma MatchesOne(exp: seq<Row>, i: nat, j: nat, actual: Row)
    requires Sharp(exp) && i < |exp| && j < |exp| && RowsMatch(exp[i], actual) && RowsMatch(exp[j], actual)
    ensures i == j
  {
    hide CellsMatch, CellsConfusable, Collide;
    var a, b := exp[i], exp[j];
    forall k | 0 <= k < |a|
      ensures CellsConfusable(a[k], b[k]) || Collide(a[k], b[k])
      ensures CellsConfusable(b[k], a[k]) || Collide(b[k], a[k])
    {
      SharedMatchIff(a[k], b[k]);
      SharedMatchIff(b[k], a[k]);
    }
  }

  ghost predicate SmallIntegers(exp: seq<Row>) {
    forall i, k | 0 <= i < |exp| && 0 <= k < |exp[i]| && exp[i][k].Int? :: -EXACT <= exp[i][k].i <= EXACT
  }

  /** The check suffices as long as no integer exceeds 2^53. */
  lemma SmallIsSharp(exp: seq<Row>)
    requires Safe(exp) && SmallIntegers(exp)
    ensures Sharp(exp)
  {
    hide CellsConfusable, AsFloat;
    forall i, j | 0 <= i < j < |exp| ensures !RowsCollide(exp[i], exp[j]) {
      if RowsCollide(exp[i], exp[j]) {
        forall k | 0 <= k < |exp[i]| ensures CellsConfusable(exp[i][k], exp[j][k]) {
          if exp[i][k].Int? && exp[j][k].Int? {
            ExactFloat(exp[i][k].i);
            ExactFloat(exp[j][k].i);
          }
        }
      }
    }
  }

  // ---- the code -------------------------------------------------------------------------------

  datatype Difference = RowCount | RowDiffers(row: nat) | Confusable(first: nat, second: nat) | Unmatched(row: nat)

  ghost predicate FirstPair(exp: seq<Row>, i: nat, j: nat) {
    && i < j < |exp| && RowsConfusable(exp[i], exp[j])
    && forall x, y | 0 <= x < y < |exp| && RowsConfusable(exp[x], exp[y]) :: i < x || (i == x && j <= y)
  }

  /** `confusable_expected_pair`: the first such pair. */
  method ConfusablePair(exp: seq<Row>) returns (r: Option<(nat, nat)>)
    ensures r.None? <==> Safe(exp)
    ensures r.Some? ==> FirstPair(exp, r.value.0, r.value.1)
  {
    for i := 0 to |exp|
      invariant forall x, y | 0 <= x < i && x < y < |exp| :: !RowsConfusable(exp[x], exp[y])
    {
      for j := i + 1 to |exp|
        invariant forall y | i < y < j :: !RowsConfusable(exp[i], exp[y])
      {
        if RowsConfusable(exp[i], exp[j]) {
          return Some((i, j));
        }
      }
    }
    r := None;
  }

  /** `m` assigns every expected row an actual row that matches it, no two the same. */
  ghost predicate IsMatching(exp: seq<Row>, act: seq<Row>, m: seq<nat>) {
    && |m| == |exp|
    && (forall i | 0 <= i < |m| :: m[i] < |act| && RowsMatch(exp[i], act[m[i]]))
    && (forall i, j | 0 <= i < j < |m| :: m[i] != m[j])
  }

  ghost predicate Matchable(exp: seq<Row>, act: seq<Row>) {
    exists m: seq<nat> :: IsMatching(exp, act, m)
  }

  /** The first row from `j` on that is not taken and matches. */
  ghost function Fit(e: Row, act: seq<Row>, taken: set<nat>, j: nat): (r: Option<nat>)
    requires j <= |act|
    ensures r.Some? ==> j <= r.value < |act| && r.value !in taken && RowsMatch(e, act[r.value])
    decreases |act| - j
  {
    if j == |act| then None
    else if j !in taken && RowsMatch(e, act[j]) then Some(j)
    else Fit(e, act, taken, j + 1)
  }

  /** The first expected row that finds none, when each takes the first that fits. */
  ghost function FirstFit(exp: seq<Row>, act: seq<Row>, taken: set<nat>, i: nat): Option<nat>
    requires i <= |exp|
    decreases |exp| - i
  {
    if i == |exp| then None
    else match Fit(exp[i], act, taken, 0)
      case None => Some(i)
      case Some(j) => FirstFit(exp, act, taken + {j}, i + 1)
  }

  lemma NoneFits(e: Row, act: seq<Row>, taken: set<nat>, j: nat)
    requires j <= |act|
    ensures Fit(e, act, taken, j).None? <==> forall k | j <= k < |act| :: k in taken || !RowsMatch(e, act[k])
    decreases |act| - j
  {
    hide RowsMatch;
    if j < |act| { NoneFits(e, act, taken, j + 1); }
  }

  /** First-fit never accepts without a one-to-one matching, and among sharp rows it accepts whenever there is one. */
  lemma {:induction false} FirstFitFrom(exp: seq<Row>, act: seq<Row>, taken: set<nat>, m: seq<nat>, i: nat)
    requires i <= |exp| && IsMatching(exp[..i], act, m) && forall j: nat :: j in taken <==> j in m
    ensures FirstFit(exp, act, taken, i).None? ==> Matchable(exp, act)
    ensures Sharp(exp) && FirstFit(exp, act, taken, i).Some? ==> !Matchable(exp, act)
    decreases |exp| - i
  {
    hide RowsMatch, Sharp;
    if i == |exp| {
      assert exp[..i] == exp;
    } else {
      var hit := Fit(exp[i], act, taken, 0);
      NoneFits(exp[i], act, taken, 0);
      if hit.Some? {
        assert exp[..i + 1] == exp[..i] + [exp[i]];
        FirstFitFrom(exp, act, taken + {hit.value}, m + [hit.value], i + 1);
      } else if Sharp(exp) && Matchable(exp, act) {
        var n: seq<nat> :| IsMatching(exp, act, n);
        var k :| 0 <= k < |m| && m[k] == n[i];
        assert exp[..i][k] == exp[k];
        MatchesOne(exp, k, i, act[n[i]]);
      }
    }
  }

  lemma FirstFitExact(exp: seq<Row>, act: seq<Row>)
    ensures FirstFit(exp, act, {}, 0).None? ==> Matchable(exp, act)
    ensures Sharp(exp) ==> (FirstFit(exp, act, {}, 0).None? <==> Matchable(exp, act))
  {
    FirstFitFrom(exp, act, {}, [], 0);
  }

  // ---- the condition is exact ----------------------------------------------------------------------

  ghost predicate ExactFor(exp: seq<Row>, act: seq<Row>) {
    FirstFit(exp, act, {}, 0).None? <==> Matchable(exp, act)
  }

  /** A row all of whose matches are taken makes first-fit fail by the time its turn comes. */
  lemma {:induction false} MissedLater(exp: seq<Row>, act: seq<Row>, taken: set<nat>, i: nat, j: nat)
    requires i <= j < |exp| && forall k | 0 <= k < |act| && RowsMatch(exp[j], act[k]) :: k in taken
    ensures FirstFit(exp, act, taken, i).Some?
    decreases j - i
  {
    hide RowsMatch;
    NoneFits(exp[i], act, taken, 0);
    if i < j && Fit(exp[i], act, taken, 0).Some? {
      MissedLater(exp, act, taken + {Fit(exp[i], act, taken, 0).value}, i + 1, j);
    }
  }

  /** A row that matches the first actual row, which is all that row `j` matches, takes it first. */
  lemma {:induction false} TakenEarlier(exp: seq<Row>, act: seq<Row>, taken: set<nat>, i: nat, first: nat, j: nat)
    requires i <= first < j < |exp| && act != [] && 0 !in taken && RowsMatch(exp[first], act[0])
    requires forall k | i <= k < first :: !RowsMatch(exp[k], act[0])
    requires forall k | 0 < k < |act| :: !RowsMatch(exp[j], act[k])
    ensures FirstFit(exp, act, taken, i).Some?
    decreases first - i
  {
    hide RowsMatch;
    var hit := Fit(exp[i], act, taken, 0);
    if i == first {
      assert hit == Some(0);
      MissedLater(exp, act, taken + {0}, i + 1, j);
    } else if hit.Some? {
      TakenEarlier(exp, act, taken + {hit.value}, i + 1, first, j);
    }
  }

  lemma {:induction false} LeastMatch(exp: seq<Row>, c: Row, i: nat) returns (first: nat)
    requires i < |exp| && RowsMatch(exp[i], c)
    ensures first <= i && RowsMatch(exp[first], c) && forall k | 0 <= k < first :: !RowsMatch(exp[k], c)
  {
    hide RowsMatch;
    if k: nat :| k < i && RowsMatch(exp[k], c) {
      first := LeastMatch(exp, c, k);
    } else {
      first := i;
    }
  }

  /** Safe rows match themselves and no other row. */
  lemma SafeMatch(exp: seq<Row>, i: nat, j: nat)
    requires Safe(exp) && i < |exp| && j < |exp|
    ensures RowsMatch(exp[i], exp[j]) <==> i == j
  {
    if i != j && RowsMatch(exp[i], exp[j]) {
      forall k | 0 <= k < |exp[i]| ensures CellsConfusable(exp[i][k], exp[j][k]) && CellsConfusable(exp[j][k], exp[i][k]) {
        assert CellsMatch(exp[i][k], exp[j][k]);
      }
      assert RowsConfusable(exp[i], exp[j]) && RowsConfusable(exp[j], exp[i]);
    }
  }

  lemma SharedRow(a: Row, b: Row) returns (c: Row)
    requires RowsCollide(a, b)
    ensures RowsMatch(a, c) && RowsMatch(b, c)
  {
    hide AsFloat;
    c := seq(|a|, k requires 0 <= k < |a| => Between(a[k], b[k]));
  }

  /** Two colliding rows: the one between them first, then all the rows but the second. */
  lemma MissedBy(exp: seq<Row>, i: nat, j: nat) returns (act: seq<Row>)
    requires Safe(exp) && i < j < |exp| && RowsCollide(exp[i], exp[j])
    ensures !ExactFor(exp, act)
  {
    hide RowsMatch, RowsCollide, Safe;
    var c := SharedRow(exp[i], exp[j]);
    act := [c] + exp[..j] + exp[j + 1..];
    forall k | 0 < k < |act| ensures !RowsMatch(exp[j], act[k]) {
      SafeMatch(exp, j, if k <= j then k - 1 else k);
    }
    var m: seq<nat> := seq(|exp|, k => if k < j then k + 1 else if k == j then 0 else k);
    forall k | 0 <= k < |m| ensures m[k] < |act| && RowsMatch(exp[k], act[m[k]]) {
      SafeMatch(exp, k, k);
    }
    assert IsMatching(exp, act, m);
    var first := LeastMatch(exp, c, i);
    TakenEarlier(exp, act, {}, 0, first, j);
  }

  /** Among safe rows first-fit is exact for every actual result if and only if the rows are sharp. */
  lemma SharpIff(exp: seq<Row>)
    requires Safe(exp)
    ensures Sharp(exp) <==> forall act :: ExactFor(exp, act)
  {
    hide FirstFit, Matchable, RowsCollide;
    if Sharp(exp) {
      forall act ensures ExactFor(exp, act) { FirstFitExact(exp, act); }
    } else {
      var i, j :| 0 <= i < j < |exp| && RowsCollide(exp[i], exp[j]);
      var act := MissedBy(exp, i, j);
    }
  }

  // ---- first-fit over an array ------------------------------------------------------------------------

  method Greedy(exp: seq<Row>, act: seq<Row>) returns (r: Option<nat>)
    ensures r == FirstFit(exp, act, {}, 0)
  {
    hide RowsMatch;
    var used := new bool[|act|](_ => false);
    ghost var taken: set<nat> := {};
    for i := 0 to |exp|
      invariant forall j | 0 <= j < |act| :: used[j] <==> j in taken
      invariant FirstFit(exp, act, {}, 0) == FirstFit(exp, act, taken, i)
    {
      var hit := FirstUnused(exp[i], act, used, taken);
      if hit.None? {
        return Some(i);
      }
      used[hit.value] := true;
      taken := taken + {hit.value};
    }
    r := None;
  }

  method FirstUnused(e: Row, act: seq<Row>, used: array<bool>, ghost taken: set<nat>) returns (r: Option<nat>)
    requires used.Length == |act| && forall j | 0 <= j < |act| :: used[j] <==> j in taken
    ensures r == Fit(e, act, taken, 0)
  {
    hide RowsMatch;
    for j := 0 to |act|
      invariant Fit(e, act, taken, 0) == Fit(e, act, taken, j)
    {
      if !used[j] && RowsMatch(e, act[j]) {
        return Some(j);
      }
    }
    r := None;
  }

  /** Beyond 2^53 first-fit can miss: 2^53 + 1 takes the double 2^53, and 2^53 is left with 2^53 + 1. */
  lemma BigIntegersMiss(exp: seq<Row>, act: seq<Row>)
    requires exp == [[Int(EXACT + 1)], [Int(EXACT)]] && act == [[Num(EXACT as real)], [Int(EXACT + 1)]]
    ensures Safe(exp) && Matchable(exp, act) && FirstFit(exp, act, {}, 0) == Some(1)
  {
    assert Ulp(EXACT + 1) == 2 && Ulp(EXACT) == 2;
    assert AsFloat(EXACT + 1) == EXACT && AsFloat(EXACT) == EXACT;
    assert RowsMatch(exp[0], act[0]) && RowsMatch(exp[0], act[1]) && RowsMatch(exp[1], act[0]);
    assert !RowsMatch(exp[1], act[1]) by { assert !CellsMatch(exp[1][0], act[1][0]); }
    assert !RowsConfusable(exp[0], exp[1]) by { assert !CellsConfusable(exp[0][0], exp[1][0]); }
    var m: seq<nat> := [1, 0];
    assert IsMatching(exp, act, m);
    assert Fit(exp[0], act, {}, 0) == Some(0);
    assert Fit(exp[1], act, {0}, 0) == Fit(exp[1], act, {0}, 1) == Fit(exp[1], act, {0}, 2) == None;
    assert {} + {0} == {0};
  }

  /** `compare`, after its cells have been classified. */
  method Compare(exp: seq<Row>, act: seq<Row>, ordered: bool) returns (r: Result<(), Difference>)
    ensures |exp| != |act| ==> r == Err(RowCount)
    ensures |exp| == |act| && ordered ==> (r.Ok? <==> forall i | 0 <= i < |exp| :: RowsMatch(exp[i], act[i]))
    ensures |exp| == |act| && ordered && r.Err? ==>
              && r.error.RowDiffers? && r.error.row < |exp| && !RowsMatch(exp[r.error.row], act[r.error.row])
              && forall i | 0 <= i < r.error.row :: RowsMatch(exp[i], act[i])
    ensures |exp| == |act| && !ordered && !Safe(exp) ==>
              r.Err? && r.error.Confusable? && FirstPair(exp, r.error.first, r.error.second)
    ensures |exp| == |act| && !ordered && Safe(exp) ==>
              r == match FirstFit(exp, act, {}, 0) case None => Ok(()) case Some(i) => Err(Unmatched(i))
    ensures |exp| == |act| && !ordered && Safe(exp) && r.Ok? ==> Matchable(exp, act)
    ensures |exp| == |act| && !ordered && Safe(exp) && Sharp(exp) ==> (r.Ok? <==> Matchable(exp, act))
  {
    hide RowsMatch, RowsConfusable, Safe, Sharp, Matchable;
    if |exp| != |act| {
      return Err(RowCount);
    }
    if ordered {
      for i := 0 to |exp|
        invariant forall j | 0 <= j < i :: RowsMatch(exp[j], act[j])
      {
        if !RowsMatch(exp[i], act[i]) {
          return Err(RowDiffers(i));
        }
      }
      return Ok(());
    }
    var pair := ConfusablePair(exp);
    if pair.Some? {
      return Err(Confusable(pair.value.0, pair.value.1));
    }
    var missing := Greedy(exp, act);
    FirstFitExact(exp, act);
    r := if missing.Some? then Err(Unmatched(missing.value)) else Ok(());
  }
}
