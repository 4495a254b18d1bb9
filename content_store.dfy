/**
 * The puzzle catalogue of data/ContentStore.ts: lookup by id, the daily
 * puzzle, conjunctive filtering, and the sorted lists of distinct pack
 * names and objective types. The bundled dataset is a parameter; a date is
 * its millisecond timestamp since the Unix epoch.
 */
module ContentStore {
  import opened Wrappers
  import opened Types
  import opened Seqs

  // ---------------------------------------------------------------------
  // Lookup

  function GetAllPuzzles(dataset: seq<Puzzle>): seq<Puzzle> {
    dataset
  }

  /** The first puzzle with this id, or none. */
  function GetPuzzleById(dataset: seq<Puzzle>, id: string): (r: Option<Puzzle>)
    ensures r.None? <==> forall k :: 0 <= k < |dataset| ==> dataset[k].id != id
    ensures r.Some? ==> exists k :: 0 <= k < |dataset| && dataset[k] == r.value && r.value.id == id
                                    && forall j :: 0 <= j < k ==> dataset[j].id != id
  {
    if dataset == [] then None
    else if dataset[0].id == id then Some(dataset[0])
    else
      var r := GetPuzzleById(dataset[1..], id);
      assert forall k :: 1 <= k < |dataset| ==> dataset[k] == dataset[1..][k - 1];
      if r.Some? then
        assert exists k :: 1 <= k < |dataset| && dataset[k] == r.value && r.value.id == id
                           && forall j :: 0 <= j < k ==> dataset[j].id != id
        by {
          var k :| 0 <= k < |dataset[1..]| && dataset[1..][k] == r.value && r.value.id == id
                   && forall j :: 0 <= j < k ==> dataset[1..][j].id != id;
          assert forall j :: 1 <= j < k + 1 ==> dataset[j] == dataset[1..][j - 1];
        }
        r
      else r
  }

  // ---------------------------------------------------------------------
  // The daily puzzle

  const MillisPerDay := 86400000

  /** JavaScript's `%`: the remainder takes the sign of the dividend. */
  function JsRem(a: int, n: int): int
    requires n > 0
  {
    if a >= 0 then a % n else -((-a) % n)
  }

  /** Whole days since the epoch, rounded down, then that many steps around
      the dataset; the index is negative before 1970, and reading a negative
      or missing index yields no puzzle. */
  function DailyPuzzle(dataset: seq<Puzzle>, ms: int): Option<Puzzle> {
    if |dataset| == 0 then None
    else
      var index := JsRem(ms / MillisPerDay, |dataset|);
      if 0 <= index < |dataset| then Some(dataset[index]) else None
  }

  /** The daily puzzle with the index wrapped into range for every date. */
  function DailyPuzzleWrapped(dataset: seq<Puzzle>, ms: int): (r: Option<Puzzle>)
    ensures r.None? <==> |dataset| == 0
  {
    if |dataset| == 0 then None else Some(dataset[(ms / MillisPerDay) % |dataset|])
  }

  /** From 1970 on, the daily puzzle is the one at the day count modulo the
      dataset's length. */
  lemma DailyInRange(dataset: seq<Puzzle>, ms: int)
    requires |dataset| > 0 && ms >= 0
    ensures 0 <= (ms / MillisPerDay) % |dataset| < |dataset|
    ensures DailyPuzzle(dataset, ms) == Some(dataset[(ms / MillisPerDay) % |dataset|])
    ensures DailyPuzzle(dataset, ms) == DailyPuzzleWrapped(dataset, ms)
  {
  }

  lemma DivByDay(day: int, t: int)
    requires 0 <= t < MillisPerDay
    ensures (day * MillisPerDay + t) / MillisPerDay == day
  {
  }

  /** Every instant of one day gives the same puzzle. */
  lemma SameDaySamePuzzle(dataset: seq<Puzzle>, day: int, t: int)
    requires 0 <= t < MillisPerDay
    ensures DailyPuzzle(dataset, day * MillisPerDay + t) == DailyPuzzle(dataset, day * MillisPerDay)
    ensures DailyPuzzleWrapped(dataset, day * MillisPerDay + t) == DailyPuzzleWrapped(dataset, day * MillisPerDay)
  {
    DivByDay(day, t);
    DivByDay(day, 0);
  }

  lemma MulAtLeast(k: int, n: int)
    requires k >= 1 && n > 0
    ensures k * n >= n
  {
    assert k * n == (k - 1) * n + n;
    assert (k - 1) * n >= 0;
  }

  /** The quotient and remainder of a division are unique. */
  lemma DivModUnique(q: int, n: int, r: int)
    requires n > 0 && 0 <= r < n
    ensures (q * n + r) / n == q && (q * n + r) % n == r
  {
    var a := q * n + r;
    var q', r' := a / n, a % n;
    assert a == q' * n + r';
    assert (q - q') * n == r' - r by {
      assert (q - q') * n == q * n - q' * n;
    }
    if q > q' {
      MulAtLeast(q - q', n);
    } else if q < q' {
      MulAtLeast(q' - q, n);
    }
  }

  /** A date one day later counts one more day. */
  lemma NextDayCount(ms: int)
    ensures (ms + MillisPerDay) / MillisPerDay == ms / MillisPerDay + 1
  {
    var d, t := ms / MillisPerDay, ms % MillisPerDay;
    assert ms + MillisPerDay == (d + 1) * MillisPerDay + t;
    DivModUnique(d + 1, MillisPerDay, t);
  }

  /** One more step around a cycle of length n. */
  lemma ModSucc(d: int, n: int)
    requires n > 0
    ensures (d + 1) % n == (d % n + 1) % n
  {
    var q, r := d / n, d % n;
    assert d + 1 == q * n + (r + 1);
    if r + 1 < n {
      DivModUnique(q, n, r + 1);
      DivModUnique(0, n, r + 1);
    } else {
      assert d + 1 == (q + 1) * n + 0;
      DivModUnique(q + 1, n, 0);
      DivModUnique(1, n, 0);
    }
  }

  /** One day later, the next puzzle in the list, wrapping after the last. */
  lemma NextDayNextPuzzle(dataset: seq<Puzzle>, ms: int)
    requires |dataset| > 0 && ms >= 0
    ensures var k := (ms / MillisPerDay) % |dataset|;
            DailyPuzzle(dataset, ms + MillisPerDay) == Some(dataset[(k + 1) % |dataset|])
  {
    NextDayCount(ms);
    ModSucc(ms / MillisPerDay, |dataset|);
  }

  /** The wrapped version advances cyclically on every day, before 1970 too. */
  lemma NextDayWrapped(dataset: seq<Puzzle>, ms: int)
    requires |dataset| > 0
    ensures var k := (ms / MillisPerDay) % |dataset|;
            DailyPuzzleWrapped(dataset, ms + MillisPerDay) == Some(dataset[(k + 1) % |dataset|])
  {
    NextDayCount(ms);
    ModSucc(ms / MillisPerDay, |dataset|);
  }

  /** One millisecond before the epoch, with two puzzles, the index is -1
      and no puzzle is returned. */
  lemma DailyBeforeEpoch(a: Puzzle, b: Puzzle)
    ensures DailyPuzzle([a, b], -1) == None
    ensures DailyPuzzleWrapped([a, b], -1) == Some(b)
  {
    assert -1 / MillisPerDay == -1;
  }

  // ---------------------------------------------------------------------
  // Filters

  /** The optional criteria of the puzzle list; an absent one accepts all. */
  datatype Filters = Filters(size: Option<int>, difficulty: Option<int>,
                             objectiveType: Option<string>, pack: Option<string>)

  const NoFilters := Filters(None, None, None, None)

  predicate Matches(puzzle: Puzzle, filters: Filters) {
    && (filters.size.None? || puzzle.size == filters.size.value)
    && (filters.difficulty.None? || puzzle.difficulty == filters.difficulty.value)
    && (filters.objectiveType.None? || puzzle.objective.kind == filters.objectiveType.value)
    && (filters.pack.None? || puzzle.pack == filters.pack.value)
  }

  function ApplyFilters(dataset: seq<Puzzle>, filters: Filters): seq<Puzzle> {
    if dataset == [] then []
    else
      var p := dataset[|dataset| - 1];
      ApplyFilters(dataset[..|dataset| - 1], filters) + (if Matches(p, filters) then [p] else [])
  }

  /** The filter keeps, in order, exactly the puzzles that agree with every
      criterion given. */
  lemma {:induction false} ApplyFiltersExactly(dataset: seq<Puzzle>, filters: Filters)
    ensures forall p :: p in ApplyFilters(dataset, filters) <==> p in dataset && Matches(p, filters)
    ensures IsSublist(ApplyFilters(dataset, filters), dataset)
  {
    if dataset != [] {
      var init, p := dataset[..|dataset| - 1], dataset[|dataset| - 1];
      ApplyFiltersExactly(init, filters);
      assert dataset == init + [p];
      if Matches(p, filters) {
        SublistBoth(ApplyFilters(init, filters), init, p);
      } else {
        assert ApplyFilters(dataset, filters) == ApplyFilters(init, filters);
        SublistGrow(ApplyFilters(init, filters), init, p);
      }
    }
  }

  /** With no criterion the whole dataset is returned. */
  lemma {:induction false} NoFiltersKeepAll(dataset: seq<Puzzle>)
    ensures ApplyFilters(dataset, NoFilters) == dataset
  {
    if dataset != [] {
      NoFiltersKeepAll(dataset[..|dataset| - 1]);
      assert dataset == dataset[..|dataset| - 1] + [dataset[|dataset| - 1]];
    }
  }

  // ---------------------------------------------------------------------
  // Distinct values, sorted

  /** The order of the default sort: code-unit by code-unit, a proper prefix
      first. */
  predicate StrLt(a: string, b: string) {
    if a == [] then b != []
    else if b == [] then false
    else if a[0] != b[0] then a[0] < b[0]
    else StrLt(a[1..], b[1..])
  }

  lemma {:induction false} StrLtIrreflexive(a: string)
    ensures !StrLt(a, a)
  {
    if a != [] {
      StrLtIrreflexive(a[1..]);
    }
  }

  lemma {:induction false} StrLtTotal(a: string, b: string)
    ensures a == b || StrLt(a, b) || StrLt(b, a)
  {
    if a != [] && b != [] && a[0] == b[0] {
      StrLtTotal(a[1..], b[1..]);
      if a[1..] == b[1..] {
        assert a == [a[0]] + a[1..] && b == [b[0]] + b[1..];
      }
    }
  }

  lemma {:induction false} StrLtTransitive(a: string, b: string, c: string)
    requires StrLt(a, b) && StrLt(b, c)
    ensures StrLt(a, c)
  {
    if a != [] && a[0] == b[0] && b[0] == c[0] {
      StrLtTransitive(a[1..], b[1..], c[1..]);
    }
  }

  predicate StrictlySorted(s: seq<string>) {
    forall i, j :: 0 <= i < j < |s| ==> StrLt(s[i], s[j])
  }

  /** Each value once, in order of first appearance (a `Set` built from a list). */
  function Distinct(xs: seq<string>): (r: seq<string>)
    ensures forall x :: x in r <==> x in xs
    ensures forall i, j :: 0 <= i < j < |r| ==> r[i] != r[j]
  {
    if xs == [] then []
    else
      var d := Distinct(xs[..|xs| - 1]);
      var x := xs[|xs| - 1];
      assert xs == xs[..|xs| - 1] + [x];
      if x in d then d else d + [x]
  }

  /** Inserts a new value into a strictly sorted list. */
  function Insert(x: string, s: seq<string>): (r: seq<string>)
    requires StrictlySorted(s) && x !in s
    ensures StrictlySorted(r)
    ensures forall y :: y in r <==> y == x || y in s
    ensures |r| == |s| + 1
  {
    if s == [] then [x]
    else if StrLt(x, s[0]) then
      assert forall j :: 0 <= j < |s| ==> StrLt(x, s[j]) by {
        forall j | 0 <= j < |s| ensures StrLt(x, s[j]) {
          if j > 0 { StrLtTransitive(x, s[0], s[j]); }
        }
      }
      [x] + s
    else
      StrLtTotal(x, s[0]);
      var rest := Insert(x, s[1..]);
      assert forall y :: y in rest ==> StrLt(s[0], y) by {
        forall y | y in rest ensures StrLt(s[0], y) {
          if y != x {
            var j :| 1 <= j < |s| && s[j] == y;
          }
        }
      }
      [s[0]] + rest
  }

  /** Insertion sort of a list without repetitions. */
  function SortStrings(xs: seq<string>): (r: seq<string>)
    requires forall i, j :: 0 <= i < j < |xs| ==> xs[i] != xs[j]
    ensures StrictlySorted(r)
    ensures forall y :: y in r <==> y in xs
    ensures |r| == |xs|
  {
    if xs == [] then []
    else
      var init := xs[..|xs| - 1];
      var s := SortStrings(init);
      assert xs == init + [xs[|xs| - 1]];
      Insert(xs[|xs| - 1], s)
  }

  function Packs(dataset: seq<Puzzle>): seq<string> {
    seq(|dataset|, k requires 0 <= k < |dataset| => dataset[k].pack)
  }

  function ObjectiveTypes(dataset: seq<Puzzle>): seq<string> {
    seq(|dataset|, k requires 0 <= k < |dataset| => dataset[k].objective.kind)
  }

  /** Every pack name used by some puzzle, once each, in ascending order. */
  function GetAllPacks(dataset: seq<Puzzle>): (r: seq<string>)
    ensures StrictlySorted(r)
    ensures forall name :: name in r <==> exists k :: 0 <= k < |dataset| && dataset[k].pack == name
  {
    var packs := Packs(dataset);
    assert forall name :: name in packs <==> exists k :: 0 <= k < |dataset| && dataset[k].pack == name
    by {
      forall name ensures name in packs <==> exists k :: 0 <= k < |dataset| && dataset[k].pack == name {
        if name in packs {
          var k :| 0 <= k < |packs| && packs[k] == name;
        }
        if exists k :: 0 <= k < |dataset| && dataset[k].pack == name {
          var k :| 0 <= k < |dataset| && dataset[k].pack == name;
          assert packs[k] == name;
        }
      }
    }
    SortStrings(Distinct(packs))
  }

  /** Every objective type used by some puzzle, once each, in ascending order. */
  function GetAllObjectiveTypes(dataset: seq<Puzzle>): (r: seq<string>)
    ensures StrictlySorted(r)
    ensures forall t :: t in r <==> exists k :: 0 <= k < |dataset| && dataset[k].objective.kind == t
  {
    var types := ObjectiveTypes(dataset);
    assert forall t :: t in types <==> exists k :: 0 <= k < |dataset| && dataset[k].objective.kind == t
    by {
      forall t ensures t in types <==> exists k :: 0 <= k < |dataset| && dataset[k].objective.kind == t {
        if t in types {
          var k :| 0 <= k < |types| && types[k] == t;
        }
        if exists k :: 0 <= k < |dataset| && dataset[k].objective.kind == t {
          var k :| 0 <= k < |dataset| && dataset[k].objective.kind == t;
          assert types[k] == t;
        }
      }
    }
    SortStrings(Distinct(types))
  }
}
